/**
 What every reachable ledger satisfies, and what no continuation of a run can undo.
 */
module LedgerInvariant {
  import opened Primitives
  import opened Guards
  import opened GuardInvariant
  import opened GuardCalls
  import opened Ledger

  /** Two levels: whoever has a parent has an initialized root as its parent. */
  predicate HierarchyInv(w: World) {
    forall a :: a in w.guards && w.guards[a].parent != EMPTY_KEY ==>
      var parent := w.guards[a].parent;
      parent in w.guards && Initialized(w.guards[parent]) && w.guards[parent].parent == EMPTY_KEY
  }

  /** The voter signed exactly this proposal. */
  predicate VoteSigned(signed: set<Signature>, k: VoteKey) {
    Signature(k.voter, k.hash, ForPropose) in signed || Signature(k.voter, k.hash, ForApprove) in signed
  }

  predicate VotesSigned(signed: set<Signature>, g: Guard) {
    forall k :: k in g.voteNullifiers ==> VoteSigned(signed, k)
  }

  ghost predicate Inv(w: World) {
    && (forall a :: a in w.guards ==> a != EMPTY_KEY && GuardInv(a, w.guards[a]))
    && (forall a :: a in w.guards ==> VotesSigned(w.signed, w.guards[a]))
    && HierarchyInv(w)
  }

  ghost predicate WorldEvolves(w: World, w': World) {
    && (forall a :: a in w.guards ==> a in w'.guards && Evolves(w.guards[a], w'.guards[a]))
    && w.signed <= w'.signed
    && w.slot <= w'.slot
    && w.height <= w'.height
  }

  predicate IsVote(c: Call) { c.DoPropose? || c.DoApprove? }

  predicate IsLocalExecution(c: Call) {
    c.DoTransfer? || c.DoAllocate? || c.DoOwnerChange? || c.DoThresholdChange? || c.DoDelegate?
  }

  predicate IsRemoteExecution(c: Call) { c.DoReclaim? || c.DoDestroy? || c.DoEnable? }

  // ---- every call has one of the four shapes ----

  /** The events an execution emits after its execution event. */
  function NoticesOf(w: World, a: PublicKey, c: Call): (es: seq<Event>)
    requires Allowed(w, a, c) && (IsLocalExecution(c) || IsRemoteExecution(c))
  {
    var g := Read(w, a);
    match c
    case DoOwnerChange(p, insertAfter) =>
      [OwnerChange(p, Target(p), p.txType == ADD_OWNER, ChangedCount(g, p), ChangedOwners(g, p, insertAfter),
                   g.configNonce + 1)]
    case DoThresholdChange(p, t) => [ThresholdChange(p, g.threshold, t, g.configNonce + 1)]
    case DoDelegate(p) => [Delegate(p, if Target(p) == EMPTY_KEY then a else Target(p))]
    case DoReclaim(p, amount) => [ReclaimChild(p, g.parent, amount)]
    case DoDestroy(p, amount) =>
      [ReclaimChild(p, g.parent, amount), EnableChildMultiSig(p, g.parent, 0, g.configNonce + 1)]
    case DoEnable(p, enabled) =>
      [EnableChildMultiSig(p, g.parent, enabled, if enabled == 0 then g.configNonce + 1 else g.configNonce)]
    case _ => []
  }

  lemma LocalCallShape(w: World, a: PublicKey, c: Call)
    requires Allowed(w, a, c) && IsLocalExecution(c) && OwnersInv(Read(w, a))
    ensures LocalShape(a, Read(w, a), c.p, NoticesOf(w, a, c), w.height, After(w, a, c))
  {
    var g := Read(w, a);
    if c.DoOwnerChange? {
      ChangedOwnersCounted(a, g, c.p, c.insertAfter, w.slot);
    }
    assert After(w, a, c).events == g.events + Stamp([Executed(g, c.p)] + NoticesOf(w, a, c), w.height);
  }

  lemma RemoteCallShape(w: World, a: PublicKey, c: Call)
    requires Allowed(w, a, c) && IsRemoteExecution(c) && Read(w, a).childMultiSigEnabled <= 1
    ensures RemoteShape(a, Read(w, a), c.p, NoticesOf(w, a, c), w.height, After(w, a, c))
  {
    assert After(w, a, c).events
      == Read(w, a).events + Stamp([ChildExecuted(Read(w, a), c.p)] + NoticesOf(w, a, c), w.height);
  }

  /** The leaf a vote writes. */
  function VoteCount(w: World, a: PublicKey, c: Call): (n: nat)
    requires IsVote(c)
  {
    if c.DoPropose? then PROPOSED_MARKER + 1 else FieldSucc(Leaf(Read(w, a).approvals, c.p))
  }

  function VoteNotices(w: World, a: PublicKey, c: Call): (es: seq<Event>)
    requires IsVote(c)
  {
    var r := Count(Read(w, a), c.p, c.voter, VoteCount(w, a, c));
    var approval := Approval(c.p, c.voter, VoteCount(w, a, c), r.approvals, r.voteNullifiers);
    if c.DoPropose? then [Proposed(c.p, c.voter)] + ReceiverEvents(c.p) + [approval] else [approval]
  }

  lemma ZeroIsUnregistered(self: PublicKey, g: Guard, h: Proposal)
    requires VotesInv(self, g.parent, g.approvals, g.voteNullifiers, g.configNonce, OwnerList(g))
             && Leaf(g.approvals, h) == 0
    ensures h !in g.approvals
  {
    assert forall k :: k in g.approvals ==> LeafInv(g.approvals, g.voteNullifiers, k);
  }

  lemma VoteCallShape(w: World, a: PublicKey, c: Call)
    requires Allowed(w, a, c) && IsVote(c)
    requires var g := Read(w, a); VotesInv(a, g.parent, g.approvals, g.voteNullifiers, g.configNonce, OwnerList(g))
    ensures VoteShape(a, Read(w, a), c.p, c.voter, VoteCount(w, a, c), VoteNotices(w, a, c), w.height, After(w, a, c))
  {
    var g := Read(w, a);
    if c.DoPropose? {
      ZeroIsUnregistered(a, g, c.p);
    }
  }

  // ---- one call ----

  lemma LocalCallKeeps(w: World, a: PublicKey, c: Call)
    requires Allowed(w, a, c) && IsLocalExecution(c) && GuardInv(a, Read(w, a))
    ensures GuardInv(a, After(w, a, c)) && Evolves(Read(w, a), After(w, a, c))
  {
    LocalCallShape(w, a, c);
    LocalExecutionKeeps(a, Read(w, a), c.p, NoticesOf(w, a, c), w.height, After(w, a, c));
    LocalExecutionEvolves(a, Read(w, a), c.p, NoticesOf(w, a, c), w.height, After(w, a, c));
  }

  lemma RemoteCallKeeps(w: World, a: PublicKey, c: Call)
    requires Allowed(w, a, c) && IsRemoteExecution(c) && GuardInv(a, Read(w, a))
    ensures GuardInv(a, After(w, a, c)) && Evolves(Read(w, a), After(w, a, c))
  {
    RemoteCallShape(w, a, c);
    RemoteExecutionKeeps(a, Read(w, a), c.p, NoticesOf(w, a, c), w.height, After(w, a, c));
    RemoteExecutionEvolves(a, Read(w, a), c.p, NoticesOf(w, a, c), w.height, After(w, a, c));
  }

  lemma VoteCallKeeps(w: World, a: PublicKey, c: Call)
    requires Allowed(w, a, c) && IsVote(c) && GuardInv(a, Read(w, a))
    ensures GuardInv(a, After(w, a, c)) && Evolves(Read(w, a), After(w, a, c))
  {
    VoteCallShape(w, a, c);
    VoteKeeps(a, Read(w, a), c.p, c.voter, VoteCount(w, a, c), VoteNotices(w, a, c), w.height, After(w, a, c));
    VoteEvolves(a, Read(w, a), c.p, c.voter, VoteCount(w, a, c), VoteNotices(w, a, c), w.height, After(w, a, c));
  }

  lemma InitCallKeeps(w: World, a: PublicKey, c: Call)
    requires Allowed(w, a, c) && (c.DoSetup? || c.DoReserve? || c.DoSetupChild?) && GuardInv(a, Read(w, a))
    ensures GuardInv(a, After(w, a, c)) && Evolves(Read(w, a), After(w, a, c))
  {
    var g := Read(w, a);
    match c {
      case DoSetup(t, n, owners) => SetupKeeps(a, g, t, n, owners, w.height);
      case DoReserve(parent, hash, t, n, owners) =>
        ReserveKeeps(a, g, parent, Read(w, parent), hash, t, n, owners, w.height);
      case DoSetupChild(t, n, owners, p) =>
        SetupChildKeeps(a, g, Read(w, p.guardAddress), t, n, owners, p, w.slot, w.height);
    }
  }

  lemma CallKeeps(w: World, a: PublicKey, c: Call)
    requires Allowed(w, a, c) && GuardInv(a, Read(w, a))
    ensures GuardInv(a, After(w, a, c)) && Evolves(Read(w, a), After(w, a, c))
  {
    if IsVote(c) { VoteCallKeeps(w, a, c); }
    else if IsLocalExecution(c) { LocalCallKeeps(w, a, c); }
    else if IsRemoteExecution(c) { RemoteCallKeeps(w, a, c); }
    else { InitCallKeeps(w, a, c); }
  }

  // ---- one action ----

  /** Which votes a call adds, if any. */
  lemma CallVotes(w: World, a: PublicKey, c: Call, k: VoteKey)
    requires Allowed(w, a, c) && k in After(w, a, c).voteNullifiers
    ensures k in Read(w, a).voteNullifiers || (IsVote(c) && k == VoteKey(c.p, c.voter))
  {
  }

  lemma CallVotesSigned(w: World, a: PublicKey, c: Call)
    requires Allowed(w, a, c) && VotesSigned(w.signed, Read(w, a))
    ensures VotesSigned(w.signed, After(w, a, c))
  {
    forall k | k in After(w, a, c).voteNullifiers ensures VoteSigned(w.signed, k) {
      CallVotes(w, a, c, k);
    }
  }

  /** A call can only give a guard a parent that is an initialized root, and only before initialization. */
  lemma CallParent(w: World, a: PublicKey, c: Call)
    requires Allowed(w, a, c)
    ensures var g, g' := Read(w, a), After(w, a, c);
            || g'.parent == g.parent
            || (&& c.DoReserve? && g.parent == EMPTY_KEY && !Initialized(g) && g'.parent == c.parent && c.parent != a
                && Initialized(Read(w, c.parent)) && Read(w, c.parent).parent == EMPTY_KEY)
  {
  }

  lemma UpdateKeepsHierarchy(w: World, a: PublicKey, g': Guard)
    requires HierarchyInv(w) && a in w.guards && Evolves(w.guards[a], g')
    requires || g'.parent == w.guards[a].parent
             || (&& !Initialized(w.guards[a]) && g'.parent != EMPTY_KEY && g'.parent != a
                 && Initialized(Read(w, g'.parent)) && Read(w, g'.parent).parent == EMPTY_KEY)
    ensures HierarchyInv(w.(guards := w.guards[a := g']))
  {
    var w' := w.(guards := w.guards[a := g']);
    forall b | b in w'.guards && w'.guards[b].parent != EMPTY_KEY
      ensures var q := w'.guards[b].parent;
              q in w'.guards && Initialized(w'.guards[q]) && w'.guards[q].parent == EMPTY_KEY
    {
      if b != a || g'.parent == w.guards[a].parent {
        var q := w.guards[b].parent;
        assert Initialized(w.guards[q]);
      }
    }
  }

  lemma UpdateKeeps(w: World, a: PublicKey, g': Guard, balances: map<PublicKey, nat>)
    requires Inv(w) && a in w.guards && GuardInv(a, g') && Evolves(w.guards[a], g') && VotesSigned(w.signed, g')
    requires HierarchyInv(w.(guards := w.guards[a := g']))
    ensures var w' := w.(guards := w.guards[a := g'], balances := balances); Inv(w') && WorldEvolves(w, w')
  {
  }

  lemma InvokeKeeps(w: World, a: PublicKey, c: Call)
    requires Inv(w) && Can(w, Invoke(a, c))
    ensures Inv(Step(w, Invoke(a, c))) && WorldEvolves(w, Step(w, Invoke(a, c)))
  {
    var g' := After(w, a, c);
    CallKeeps(w, a, c);
    CallVotesSigned(w, a, c);
    CallParent(w, a, c);
    UpdateKeepsHierarchy(w, a, g');
    UpdateKeeps(w, a, g', Settle(w.balances, a, Outflow(w, a, c)));
  }

  lemma DeployKeeps(w: World, a: PublicKey, g': Guard)
    requires Inv(w) && a !in w.guards && a != EMPTY_KEY && GuardInv(a, g') && g'.voteNullifiers == map[]
             && g'.parent == EMPTY_KEY
    ensures var w' := w.(guards := w.guards[a := g']); Inv(w') && WorldEvolves(w, w')
  {
  }

  /** Signatures, payments and the passing of time do not touch any guard. */
  lemma QuietKeeps(w: World, w': World)
    requires Inv(w) && w'.guards == w.guards && w.signed <= w'.signed && w.slot <= w'.slot && w.height <= w'.height
    ensures Inv(w') && WorldEvolves(w, w')
  {
  }

  lemma StepKeeps(w: World, act: Action)
    requires Inv(w)
    ensures Inv(Step(w, act)) && WorldEvolves(w, Step(w, act))
  {
    if Can(w, act) && act.Deploy? {
      DeployEstablishes(act.at, w.height);
      DeployKeeps(w, act.at, Emit(BLANK, [Deployed], w.height));
    } else if Can(w, act) && act.Invoke? {
      InvokeKeeps(w, act.at, act.call);
    } else {
      QuietKeeps(w, Step(w, act));
    }
  }

  // ---- whole runs ----

  lemma WorldEvolvesTransitive(a: World, b: World, c: World)
    requires WorldEvolves(a, b) && WorldEvolves(b, c)
    ensures WorldEvolves(a, c)
  {
    forall x | x in a.guards ensures x in c.guards && Evolves(a.guards[x], c.guards[x]) {
      EvolvesTransitive(a.guards[x], b.guards[x], c.guards[x]);
    }
  }

  lemma {:induction false} RunKeeps(w: World, acts: seq<Action>)
    requires Inv(w)
    ensures Inv(Run(w, acts)) && WorldEvolves(w, Run(w, acts))
  {
    if acts != [] {
      var mid := Run(w, acts[..|acts| - 1]);
      RunKeeps(w, acts[..|acts| - 1]);
      StepKeeps(mid, acts[|acts| - 1]);
      WorldEvolvesTransitive(w, mid, Run(w, acts));
    }
  }

  lemma {:induction false} ReachableInv(w: World)
    requires Reachable(w)
    ensures Inv(w)
  {
    var balances, acts :| w == Run(Genesis(balances), acts);
    RunKeeps(Genesis(balances), acts);
  }

  lemma {:induction false} RunConcat(w: World, first: seq<Action>, second: seq<Action>)
    ensures Run(w, first + second) == Run(Run(w, first), second)
    decreases |second|
  {
    if second == [] {
      assert first + second == first;
    } else {
      assert (first + second)[..|first + second| - 1] == first + second[..|second| - 1];
      RunConcat(w, first, second[..|second| - 1]);
    }
  }
}
