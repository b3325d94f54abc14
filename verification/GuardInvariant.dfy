/**
 What every method call keeps of one guard, whatever the other accounts hold.
 */
module GuardInvariant {
  import opened Primitives
  import opened ListCommitment
  import opened Guards

  // ---- execution history, read off the emitted events ----

  datatype Kind = LocalKind | LifecycleKind | CreateKind | OtherKind

  function KindOf(t: nat): Kind {
    if LocalType(t) then LocalKind else if LifecycleType(t) then LifecycleKind
    else if t == CREATE_CHILD then CreateKind else OtherKind
  }

  /** The proposals of one kind a guard has executed, in order. */
  function Execs(es: seq<Emitted>, k: Kind): (ps: seq<Proposal>)
  {
    if es == [] then []
    else
      var before, e := Execs(es[..|es| - 1], k), es[|es| - 1].event;
      if e.Execution? && KindOf(e.txType) == k then before + [e.hash] else before
  }

  lemma {:induction false} ExecsConcat(es: seq<Emitted>, more: seq<Emitted>, k: Kind)
    ensures Execs(es + more, k) == Execs(es, k) + Execs(more, k)
    decreases |more|
  {
    if more == [] {
      assert es + more == es;
    } else {
      assert (es + more)[..|es + more| - 1] == es + more[..|more| - 1];
      ExecsConcat(es, more[..|more| - 1], k);
    }
  }

  lemma {:induction false} ExecsNone(es: seq<Emitted>, k: Kind)
    requires forall i :: 0 <= i < |es| ==> !es[i].event.Execution?
    ensures Execs(es, k) == []
  {
    if es != [] { ExecsNone(es[..|es| - 1], k); }
  }

  /** The first event of a batch is an execution and nothing after it is. */
  lemma {:induction false} ExecsHead(es: seq<Emitted>, more: seq<Event>, height: nat, k: Kind)
    requires |more| > 0 && more[0].Execution?
    requires forall i :: 1 <= i < |more| ==> !more[i].Execution?
    ensures Execs(es + Stamp(more, height), k) ==
            if KindOf(more[0].txType) == k then Execs(es, k) + [more[0].hash] else Execs(es, k)
  {
    var tail := Stamp(more, height);
    ExecsConcat(es, tail, k);
    ExecsConcat([tail[0]], tail[1..], k);
    ExecsNone(tail[1..], k);
    assert [tail[0]] + tail[1..] == tail;
    assert [tail[0]][..0] == [];
    assert Execs([tail[0]], k) == if KindOf(more[0].txType) == k then [more[0].hash] else [];
  }

  lemma {:induction false} ExecsSame(es: seq<Emitted>, more: seq<Event>, height: nat, k: Kind)
    requires forall i :: 0 <= i < |more| ==> !more[i].Execution?
    ensures Execs(es + Stamp(more, height), k) == Execs(es, k)
  {
    ExecsConcat(es, Stamp(more, height), k);
    ExecsNone(Stamp(more, height), k);
  }

  // ---- the invariant ----

  /** Everyone whose vote on `h` is nullified. */
  function Voters(votes: map<VoteKey, nat>, h: Proposal): (s: set<PublicKey>)
  {
    set k | k in votes && k.hash == h :: k.voter
  }

  /** Distinct keyholders, an exact count, and a threshold they can reach. */
  predicate Governance(owners: Field, threshold: nat, numOwners: nat) {
    && owners.OwnersHash?
    && XDistinct(owners.owners)
    && |owners.owners| == numOwners
    && 1 <= threshold <= numOwners <= MAX_OWNERS
  }

  predicate OwnersInv(g: Guard) { Governance(g.ownersCommitment, g.threshold, g.numOwners) }

  /** A leaf is one more than the number of nullified voters, or the executed marker. */
  predicate LeafInv(approvals: map<Proposal, nat>, votes: map<VoteKey, nat>, h: Proposal) {
    && 1 <= |Voters(votes, h)| <= MAX_OWNERS
    && (Leaf(approvals, h) == EXECUTED_MARKER || Leaf(approvals, h) == PROPOSED_MARKER + |Voters(votes, h)|)
  }

  /** What propose() established of a registered proposal, and what time has not undone. */
  predicate RegisteredInv(self: PublicKey, parent: PublicKey, configNonce: nat, h: Proposal) {
    && WellFormed(h)
    && ProposeRules(h)
    && h.guardAddress == self
    && DestinationOk(h, parent)
    && h.configNonce <= configNonce
  }

  ghost predicate VotesInv(self: PublicKey, parent: PublicKey, approvals: map<Proposal, nat>, votes: map<VoteKey, nat>,
                     configNonce: nat, owners: seq<PublicKey>) {
    && (forall h :: h in approvals ==> RegisteredInv(self, parent, configNonce, h) && LeafInv(approvals, votes, h))
    && (forall k :: k in votes ==>
          && votes[k] == 1
          && k.hash in approvals
          && (k.hash.configNonce == configNonce ==> k.voter in owners))
  }

  /** LOCAL executions carry the nonces 1, 2, 3, ... and are exactly the executed leaves. */
  predicate LocalExecInv(self: PublicKey, events: seq<Emitted>, nonce: nat, approvals: map<Proposal, nat>) {
    var done := Execs(events, LocalKind);
    && |done| == nonce
    && (forall i :: 0 <= i < |done| ==>
          done[i].nonce == i + 1 && done[i].destination == LOCAL && done[i].guardAddress == self
          && Leaf(approvals, done[i]) == EXECUTED_MARKER)
    && (forall h :: h in approvals && approvals[h] == EXECUTED_MARKER ==> h in done)
  }

  /** Lifecycle executions carry the nonces 1, 2, 3, ... and are exactly the child execution map. */
  ghost predicate ChildExecInv(self: PublicKey, parent: PublicKey, events: seq<Emitted>, parentNonce: nat,
                               childExecutions: map<Proposal, nat>) {
    var done := Execs(events, LifecycleKind);
    && |done| == parentNonce
    && (forall i :: 0 <= i < |done| ==>
          done[i].nonce == i + 1 && done[i].destination == REMOTE && done[i].childAccount == self
          && done[i].guardAddress == parent)
    && (forall h :: h in childExecutions <==> h in done)
    && (forall h :: h in childExecutions ==> childExecutions[h] == EXECUTED_MARKER)
  }

  // ---- child configuration, read off the emitted events ----

  /** Owner commitment, threshold and owner count. */
  datatype Config = Config(owners: seq<PublicKey>, threshold: nat, numOwners: nat)

  function Reservations(es: seq<Emitted>): (cs: seq<Config>)
  {
    if es == [] then []
    else
      var before, e := Reservations(es[..|es| - 1]), es[|es| - 1].event;
      if e.CreateChildConfig? then before + [Config(e.owners, e.threshold, e.numOwners)] else before
  }

  function Setups(es: seq<Emitted>): (cs: seq<Config>)
  {
    if es == [] then []
    else
      var before, e := Setups(es[..|es| - 1]), es[|es| - 1].event;
      if e.Setup? then before + [Config(e.owners, e.threshold, e.numOwners)] else before
  }

  lemma {:induction false} ConfigsConcat(es: seq<Emitted>, more: seq<Emitted>)
    ensures Reservations(es + more) == Reservations(es) + Reservations(more)
    ensures Setups(es + more) == Setups(es) + Setups(more)
    decreases |more|
  {
    if more == [] {
      assert es + more == es;
    } else {
      assert (es + more)[..|es + more| - 1] == es + more[..|more| - 1];
      ConfigsConcat(es, more[..|more| - 1]);
    }
  }

  lemma {:induction false} ConfigsNone(es: seq<Emitted>)
    requires forall i :: 0 <= i < |es| ==> !es[i].event.CreateChildConfig? && !es[i].event.Setup?
    ensures Reservations(es) == [] && Setups(es) == []
  {
    if es != [] { ConfigsNone(es[..|es| - 1]); }
  }

  lemma {:induction false} ConfigsSame(es: seq<Emitted>, more: seq<Event>, height: nat)
    requires forall i :: 0 <= i < |more| ==> !more[i].CreateChildConfig? && !more[i].Setup?
    ensures Reservations(es + Stamp(more, height)) == Reservations(es)
    ensures Setups(es + Stamp(more, height)) == Setups(es)
  {
    ConfigsConcat(es, Stamp(more, height));
    ConfigsNone(Stamp(more, height));
  }

  lemma {:induction false} ConfigsHead(es: seq<Emitted>, more: seq<Event>, height: nat)
    requires |more| > 0 && (more[0].CreateChildConfig? || more[0].Setup?)
    requires forall i :: 1 <= i < |more| ==> !more[i].CreateChildConfig? && !more[i].Setup?
    ensures var c := Config(more[0].owners, more[0].threshold, more[0].numOwners);
            && Reservations(es + Stamp(more, height))
               == (if more[0].Setup? then Reservations(es) else Reservations(es) + [c])
            && Setups(es + Stamp(more, height)) == (if more[0].Setup? then Setups(es) + [c] else Setups(es))
  {
    var tail := Stamp(more, height);
    ConfigsConcat(es, tail);
    ConfigsConcat([tail[0]], tail[1..]);
    ConfigsNone(tail[1..]);
    assert [tail[0]] + tail[1..] == tail;
    assert [tail[0]][..0] == [];
    assert Reservations([]) == [] && Setups([]) == [];
  }

  function HashOf(c: Config): Field { ConfigHash(c.owners, c.threshold, c.numOwners) }

  /**
   A guard is reserved at most once and set up at most once. A reserved guard holds the hash of its one
   published reservation until the approved creation consumes it, and is then set up with that configuration.
   */
  predicate ConfigInv(g: Guard) {
    var reservations, setups, creations := Reservations(g.events), Setups(g.events), Execs(g.events, CreateKind);
    && |reservations| == (if g.parent == EMPTY_KEY then 0 else 1)
    && |setups| == (if Initialized(g) then 1 else 0)
    && |creations| == (if Initialized(g) && g.parent != EMPTY_KEY then 1 else 0)
    && (g.parent != EMPTY_KEY && !Initialized(g) ==> g.reservedConfigHash == HashOf(reservations[0]))
    && (g.parent != EMPTY_KEY && Initialized(g) ==>
          && setups[0] == reservations[0]
          && creations[0].data == HashOf(reservations[0]))
  }

  /** The creation this guard was set up by names it as the child. */
  predicate CreationInv(self: PublicKey, g: Guard) {
    forall p :: p in Execs(g.events, CreateKind) ==>
      p.childAccount == self && p.destination == REMOTE && p.guardAddress == g.parent && p.nonce == 0
  }

  ghost predicate GuardInv(self: PublicKey, g: Guard) {
    && (Initialized(g) ==> OwnersInv(g))
    && (!Initialized(g) ==> g.configNonce == 0 && g.approvals == map[] && g.voteNullifiers == map[])
    && VotesInv(self, g.parent, g.approvals, g.voteNullifiers, g.configNonce, OwnerList(g))
    && LocalExecInv(self, g.events, g.nonce, g.approvals)
    && ChildExecInv(self, g.parent, g.events, g.parentNonce, g.childExecutions)
    && (!Initialized(g) ==> g.nonce == 0 && g.parentNonce == 0 && g.childExecutions == map[])
    && ConfigInv(g)
    && CreationInv(self, g)
    && g.childMultiSigEnabled <= 1
  }

  // ---- what one call may change ----

  /** A transitive description of every call's effect; nothing a later state can undo is missing. */
  ghost predicate Evolves(g: Guard, g': Guard) {
    && (Initialized(g) ==> Initialized(g'))
    && (Initialized(g) || g.parent != EMPTY_KEY ==> g'.parent == g.parent)
    && (g.parent != EMPTY_KEY && !Initialized(g') ==> g'.reservedConfigHash == g.reservedConfigHash)
    && g.nonce <= g'.nonce
    && g.configNonce <= g'.configNonce
    && g.parentNonce <= g'.parentNonce
    && (forall h :: Leaf(g.approvals, h) <= Leaf(g'.approvals, h))
    && (forall h :: Leaf(g.approvals, h) == EXECUTED_MARKER ==> Leaf(g'.approvals, h) == EXECUTED_MARKER)
    && (forall k :: Leaf(g.voteNullifiers, k) <= Leaf(g'.voteNullifiers, k))
    && g.events <= g'.events
    && (Initialized(g) && g'.configNonce == g.configNonce ==>
          g'.ownersCommitment == g.ownersCommitment && g'.threshold == g.threshold && g'.numOwners == g.numOwners)
  }

  lemma EvolvesTransitive(a: Guard, b: Guard, c: Guard)
    requires Evolves(a, b) && Evolves(b, c)
    ensures Evolves(a, c)
  {
  }

  // ---- votes ----

  lemma VotersPut(votes: map<VoteKey, nat>, h: Proposal, voter: PublicKey)
    requires Leaf(votes, VoteKey(h, voter)) == 0
    requires forall k :: k in votes ==> votes[k] == 1
    ensures Voters(Put(votes, VoteKey(h, voter), 1), h) == Voters(votes, h) + {voter}
    ensures voter !in Voters(votes, h)
    ensures forall o :: o != h ==> Voters(Put(votes, VoteKey(h, voter), 1), o) == Voters(votes, o)
  {
    var key := VoteKey(h, voter);
    var votes' := Put(votes, key, 1);
    assert key in votes';
    forall v | v in Voters(votes, h) + {voter} ensures v in Voters(votes', h) {
      assert VoteKey(h, v) in votes';
    }
    forall o | o != h ensures Voters(votes', o) == Voters(votes, o) {
      forall v | v in Voters(votes, o) ensures v in Voters(votes', o) {
        assert VoteKey(o, v) in votes';
      }
    }
  }

  lemma SubsetOfList(s: set<PublicKey>, list: seq<PublicKey>)
    requires forall v :: v in s ==> v in list
    ensures |s| <= |list|
  {
    if list == [] {
      assert s == {};
    } else {
      var last, init := list[|list| - 1], list[..|list| - 1];
      assert list == init + [last];
      SubsetOfList(s - {last}, init);
      if last in s { assert |s - {last}| == |s| - 1; } else { assert s - {last} == s; }
    }
  }

  /** A proposal of the current epoch is voted on by current owners only, so a new vote leaves at most MAX_OWNERS. */
  lemma VoterBound(self: PublicKey, g: Guard, p: Proposal, voter: PublicKey)
    requires VotesInv(self, g.parent, g.approvals, g.voteNullifiers, g.configNonce, OwnerList(g))
    requires OwnersInv(g) && p.configNonce == g.configNonce && voter in OwnerList(g)
    requires Leaf(g.voteNullifiers, VoteKey(p, voter)) == 0
    ensures |Voters(g.voteNullifiers, p)| + 1 <= MAX_OWNERS
    ensures p !in g.approvals ==> Voters(g.voteNullifiers, p) == {}
  {
    var s := Voters(g.voteNullifiers, p);
    forall v | v in s + {voter} ensures v in OwnerList(g) {
      assert v == voter || VoteKey(p, v) in g.voteNullifiers;
    }
    SubsetOfList(s + {voter}, OwnerList(g));
    assert voter !in s;
    if v :| v in s { assert VoteKey(p, v) in g.voteNullifiers; }
  }

  /** The leaf written by a vote: it counts the voters, and never reaches the executed marker. */
  lemma {:induction false} CountValue(self: PublicKey, g: Guard, p: Proposal, voter: PublicKey, count: nat)
    requires VotesInv(self, g.parent, g.approvals, g.voteNullifiers, g.configNonce, OwnerList(g))
    requires OwnersInv(g) && p.configNonce == g.configNonce && voter in OwnerList(g)
    requires Leaf(g.voteNullifiers, VoteKey(p, voter)) == 0 && Leaf(g.approvals, p) != EXECUTED_MARKER
    requires count == if p !in g.approvals then PROPOSED_MARKER + 1 else FieldSucc(Leaf(g.approvals, p))
    ensures count == (if p !in g.approvals then 2 else Leaf(g.approvals, p) + 1)
    ensures count == PROPOSED_MARKER + |Voters(g.voteNullifiers, p)| + 1 <= PROPOSED_MARKER + MAX_OWNERS
  {
    VoterBound(self, g, p, voter);
    if p in g.approvals {
      assert LeafInv(g.approvals, g.voteNullifiers, p);
    }
  }

  /** Counting one more vote keeps the vote invariant. */
  lemma CountKeeps(self: PublicKey, g: Guard, p: Proposal, voter: PublicKey, count: nat)
    requires VotesInv(self, g.parent, g.approvals, g.voteNullifiers, g.configNonce, OwnerList(g))
    requires OwnersInv(g) && RegisteredInv(self, g.parent, g.configNonce, p)
    requires p.configNonce == g.configNonce && voter in OwnerList(g)
    requires Leaf(g.voteNullifiers, VoteKey(p, voter)) == 0
    requires count == PROPOSED_MARKER + |Voters(g.voteNullifiers, p)| + 1 <= PROPOSED_MARKER + MAX_OWNERS
    ensures VotesInv(self, g.parent, Put(g.approvals, p, count), Put(g.voteNullifiers, VoteKey(p, voter), 1),
                     g.configNonce, OwnerList(g))
  {
    var votes, approvals := Put(g.voteNullifiers, VoteKey(p, voter), 1), Put(g.approvals, p, count);
    VotersPut(g.voteNullifiers, p, voter);
    forall h | h in approvals ensures RegisteredInv(self, g.parent, g.configNonce, h) && LeafInv(approvals, votes, h) {
      if h != p {
        assert h in g.approvals && LeafInv(g.approvals, g.voteNullifiers, h);
      } else {
        assert |Voters(votes, p)| == |Voters(g.voteNullifiers, p)| + 1;
      }
    }
    forall k | k in votes
      ensures votes[k] == 1 && k.hash in approvals
              && (k.hash.configNonce == g.configNonce ==> k.voter in OwnerList(g)) {
      assert k == VoteKey(p, voter) || k in g.voteNullifiers;
    }
  }

  /** Marking a proposal executed keeps the vote invariant, in this epoch or the next. */
  lemma MarkKeepsVotes(self: PublicKey, g: Guard, p: Proposal, configNonce: nat, owners: seq<PublicKey>)
    requires VotesInv(self, g.parent, g.approvals, g.voteNullifiers, g.configNonce, OwnerList(g))
    requires p in g.approvals
    requires configNonce > g.configNonce || (configNonce == g.configNonce && owners == OwnerList(g))
    ensures VotesInv(self, g.parent, Put(g.approvals, p, EXECUTED_MARKER), g.voteNullifiers, configNonce, owners)
  {
    var approvals := Put(g.approvals, p, EXECUTED_MARKER);
    forall h | h in approvals
      ensures RegisteredInv(self, g.parent, configNonce, h) && LeafInv(approvals, g.voteNullifiers, h) {
      assert h in g.approvals;
    }
    forall k | k in g.voteNullifiers
      ensures k.hash in approvals && (k.hash.configNonce == configNonce ==> k.voter in owners) {
      assert k.hash in g.approvals && RegisteredInv(self, g.parent, g.configNonce, k.hash);
    }
  }

  lemma MarkKeepsLocalExecs(self: PublicKey, g: Guard, p: Proposal, more: seq<Event>, height: nat)
    requires LocalExecInv(self, g.events, g.nonce, g.approvals)
    requires p.destination == LOCAL && p.guardAddress == self && p.nonce == g.nonce + 1 && LocalType(p.txType)
    requires |more| > 0 && more[0] == Executed(g, p)
    requires forall i :: 1 <= i < |more| ==> !more[i].Execution?
    ensures LocalExecInv(self, g.events + Stamp(more, height), g.nonce + 1, Put(g.approvals, p, EXECUTED_MARKER))
  {
    ExecsHead(g.events, more, height, LocalKind);
    var done, approvals := Execs(g.events, LocalKind), MarkExecuted(g, p).approvals;
    forall h | h in approvals && approvals[h] == EXECUTED_MARKER ensures h in done + [p] {
      if h != p { assert h in g.approvals && g.approvals[h] == EXECUTED_MARKER; }
    }
  }

  lemma MarkKeepsChildExecs(self: PublicKey, g: Guard, p: Proposal, more: seq<Event>, height: nat)
    requires ChildExecInv(self, g.parent, g.events, g.parentNonce, g.childExecutions)
    requires p.destination == REMOTE && p.childAccount == self && p.guardAddress == g.parent
    requires p.nonce == g.parentNonce + 1 && LifecycleType(p.txType)
    requires |more| > 0 && more[0] == ChildExecuted(g, p)
    requires forall i :: 1 <= i < |more| ==> !more[i].Execution?
    ensures ChildExecInv(self, g.parent, g.events + Stamp(more, height), g.parentNonce + 1,
                         Put(g.childExecutions, p, EXECUTED_MARKER))
  {
    ExecsHead(g.events, more, height, LifecycleKind);
  }
}
