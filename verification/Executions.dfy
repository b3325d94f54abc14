/**
 Replay protection, configuration epochs, the two-level hierarchy and the binding of child
 configurations, each over every run.
 */
module Executions {
  import opened Primitives
  import opened ListCommitment
  import opened Guards
  import opened GuardInvariant
  import opened GuardCalls
  import opened Ledger
  import opened LedgerInvariant
  import opened Quorum

  // ---- the emitted history is the history of successful calls ----

  function KindOfCall(c: Call): (k: Kind)
    requires IsExecution(c)
  {
    if IsLocalExecution(c) then LocalKind else if IsRemoteExecution(c) then LifecycleKind else CreateKind
  }

  predicate Executes(w: World, act: Action, a: PublicKey, k: Kind) {
    Can(w, act) && act.Invoke? && act.at == a && IsExecution(act.call) && KindOfCall(act.call) == k
  }

  /** The proposals of one kind whose execution on guard `a` succeeded, in run order. */
  function ExecutedIn(w: World, acts: seq<Action>, a: PublicKey, k: Kind): (ps: seq<Proposal>)
  {
    if acts == [] then []
    else
      var before, last := ExecutedIn(w, acts[..|acts| - 1], a, k), acts[|acts| - 1];
      if Executes(Run(w, acts[..|acts| - 1]), last, a, k) then before + [last.call.p] else before
  }

  lemma CallRecorded(w: World, a: PublicKey, c: Call, k: Kind)
    requires Allowed(w, a, c)
    requires IsLocalExecution(c) ==> OwnersInv(Read(w, a))
    requires IsRemoteExecution(c) ==> Read(w, a).childMultiSigEnabled <= 1
    requires k != OtherKind
    ensures Execs(After(w, a, c).events, k) ==
            if IsExecution(c) && KindOfCall(c) == k then Execs(Read(w, a).events, k) + [c.p]
              else Execs(Read(w, a).events, k)
  {
    if IsVote(c) {
      ExecsSame(Read(w, a).events, VoteNotices(w, a, c), w.height, k);
    } else if IsLocalExecution(c) {
      LocalCallRecorded(w, a, c, k);
    } else if IsRemoteExecution(c) {
      RemoteCallRecorded(w, a, c, k);
    } else {
      InitCallRecorded(w, a, c, k);
    }
  }

  lemma LocalCallRecorded(w: World, a: PublicKey, c: Call, k: Kind)
    requires Allowed(w, a, c) && IsLocalExecution(c) && OwnersInv(Read(w, a))
    ensures Execs(After(w, a, c).events, k) == if k == LocalKind then Execs(Read(w, a).events, k) + [c.p]
              else Execs(Read(w, a).events, k)
  {
    LocalCallShape(w, a, c);
    ExecsHead(Read(w, a).events, [Executed(Read(w, a), c.p)] + NoticesOf(w, a, c), w.height, k);
  }

  lemma RemoteCallRecorded(w: World, a: PublicKey, c: Call, k: Kind)
    requires Allowed(w, a, c) && IsRemoteExecution(c) && Read(w, a).childMultiSigEnabled <= 1
    ensures Execs(After(w, a, c).events, k) == if k == LifecycleKind then Execs(Read(w, a).events, k) + [c.p]
              else Execs(Read(w, a).events, k)
  {
    RemoteCallShape(w, a, c);
    ExecsHead(Read(w, a).events, [ChildExecuted(Read(w, a), c.p)] + NoticesOf(w, a, c), w.height, k);
  }

  lemma InitCallRecorded(w: World, a: PublicKey, c: Call, k: Kind)
    requires Allowed(w, a, c) && (c.DoSetup? || c.DoReserve? || c.DoSetupChild?) && k != OtherKind
    ensures Execs(After(w, a, c).events, k) ==
            if c.DoSetupChild? && k == CreateKind then Execs(Read(w, a).events, k) + [c.p]
              else Execs(Read(w, a).events, k)
  {
    var g := Read(w, a);
    match c {
      case DoSetup(t, n, owners) => InitializeKeeps(g, t, n, EMPTY_KEY, owners, w.height);
      case DoReserve(_, hash, t, n, owners) =>
        ExecsSame(g.events, [CreateChildConfig(hash, a, Active(owners, n), t, n)]
                  + CreateChildOwnerEvents(hash, owners, n), w.height, k);
      case DoSetupChild(t, n, owners, p) =>
        InitializeKeeps(g, t, n, p.guardAddress, owners, w.height);
        ExecsHead(Initialize(g, t, n, p.guardAddress, owners, w.height).events,
                  [Execution(p, p.txType, map[]), CreateChild(p, p.guardAddress)], w.height, k);
    }
  }

  lemma GuardFacts(w: World, a: PublicKey)
    requires Inv(w) && a in w.guards
    ensures Initialized(w.guards[a]) ==> OwnersInv(w.guards[a])
    ensures w.guards[a].childMultiSigEnabled <= 1
  {
    assert GuardInv(a, w.guards[a]);
  }

  lemma StepRecorded(w: World, act: Action, a: PublicKey, k: Kind)
    requires k != OtherKind
    requires a in w.guards ==>
               (Initialized(w.guards[a]) ==> OwnersInv(w.guards[a])) && w.guards[a].childMultiSigEnabled <= 1
    ensures Execs(Read(Step(w, act), a).events, k) ==
            if Executes(w, act, a, k) then Execs(Read(w, a).events, k) + [act.call.p] else Execs(Read(w, a).events, k)
  {
    if Can(w, act) && act.Invoke? && act.at == a {
      CallRecorded(w, a, act.call, k);
    } else if Can(w, act) && act.Deploy? && act.at == a {
      ExecsSame([], [Deployed], w.height, k);
    }
  }

  lemma {:induction false} HistoryIsComplete(balances: map<PublicKey, nat>, acts: seq<Action>, a: PublicKey, k: Kind)
    requires k != OtherKind
    ensures Execs(Read(Run(Genesis(balances), acts), a).events, k) == ExecutedIn(Genesis(balances), acts, a, k)
  {
    if acts != [] {
      var init := acts[..|acts| - 1];
      HistoryIsComplete(balances, init, a, k);
      RunKeeps(Genesis(balances), init);
      if a in Run(Genesis(balances), init).guards { GuardFacts(Run(Genesis(balances), init), a); }
      StepRecorded(Run(Genesis(balances), init), acts[|acts| - 1], a, k);
    }
  }

  // ---- at most once and in order ----

  /** The k-th LOCAL execution of a guard, and the k-th lifecycle execution of a child, have nonce k. */
  lemma {:induction false} ExecutionsInOrder(balances: map<PublicKey, nat>, acts: seq<Action>, a: PublicKey, i: nat)
    ensures var done := ExecutedIn(Genesis(balances), acts, a, LocalKind);
            |done| == Read(Run(Genesis(balances), acts), a).nonce && (i < |done| ==> done[i].nonce == i + 1)
    ensures var done := ExecutedIn(Genesis(balances), acts, a, LifecycleKind);
            |done| == Read(Run(Genesis(balances), acts), a).parentNonce && (i < |done| ==> done[i].nonce == i + 1)
    ensures |ExecutedIn(Genesis(balances), acts, a, CreateKind)| <= 1
  {
    RunKeeps(Genesis(balances), acts);
    HistoryIsComplete(balances, acts, a, LocalKind);
    HistoryIsComplete(balances, acts, a, LifecycleKind);
    HistoryIsComplete(balances, acts, a, CreateKind);
    var w := Run(Genesis(balances), acts);
    if a in w.guards { assert GuardInv(a, w.guards[a]); }
  }

  /** What an executed proposal says about where and how it was executed. */
  lemma ExecutionPlace(w: World, a: PublicKey, k: Kind, i: nat)
    requires Reachable(w) && a in w.guards && k != OtherKind && i < |Execs(w.guards[a].events, k)|
    ensures var p := Execs(w.guards[a].events, k)[i];
            && (k == LocalKind ==> p.destination == LOCAL && p.guardAddress == a && p.nonce == i + 1)
            && (k == LifecycleKind ==> p.destination == REMOTE && p.childAccount == a && p.nonce == i + 1)
            && (k == CreateKind ==> p.destination == REMOTE && p.childAccount == a && p.nonce == 0 && i == 0)
  {
    ReachableInv(w);
    assert GuardInv(a, w.guards[a]);
    assert Execs(w.guards[a].events, k)[i] in Execs(w.guards[a].events, k);
  }

  /** No proposal is executed twice, not on one guard and not on two. */
  lemma {:induction false} NoDoubleExecution(w: World, a: PublicKey, j: Kind, m: nat, b: PublicKey, k: Kind, n: nat)
    requires Reachable(w) && a in w.guards && b in w.guards && j != OtherKind && k != OtherKind
    requires m < |Execs(w.guards[a].events, j)| && n < |Execs(w.guards[b].events, k)|
    requires Execs(w.guards[a].events, j)[m] == Execs(w.guards[b].events, k)[n]
    ensures a == b && j == k && m == n
  {
    ExecutionPlace(w, a, j, m);
    ExecutionPlace(w, b, k, n);
  }

  /** Of two proposals competing for one nonce of one guard, at most one is ever executed. */
  lemma {:induction false} NonceExecutedOnce(w: World, a: PublicKey, k: Kind, p: Proposal, q: Proposal)
    requires Reachable(w) && a in w.guards && (k == LocalKind || k == LifecycleKind)
    requires p in Execs(w.guards[a].events, k) && q in Execs(w.guards[a].events, k) && p.nonce == q.nonce
    ensures p == q
  {
    var done := Execs(w.guards[a].events, k);
    var m :| 0 <= m < |done| && done[m] == p;
    var n :| 0 <= n < |done| && done[n] == q;
    ExecutionPlace(w, a, k, m);
    ExecutionPlace(w, a, k, n);
  }

  // ---- epochs ----

  /** The call votes on or executes `h`. */
  predicate Uses(c: Call, h: Proposal) { (IsVote(c) || IsExecution(c)) && c.p == h }

  lemma UseNeedsCurrentEpoch(w: World, b: PublicKey, c: Call)
    requires Allowed(w, b, c) && (IsVote(c) || IsExecution(c))
    ensures c.p.configNonce == Read(w, c.p.guardAddress).configNonce
  {
  }

  lemma {:induction false} CountersOnlyRise(w: World, acts: seq<Action>, a: PublicKey)
    requires Reachable(w)
    ensures var g, g' := Read(w, a), Read(Run(w, acts), a);
            g.configNonce <= g'.configNonce && g.nonce <= g'.nonce && g.parentNonce <= g'.parentNonce
  {
    ReachableInv(w);
    RunKeeps(w, acts);
  }

  /** A proposal of an epoch its guard has left gains no vote and is not executed, wherever and whenever tried. */
  lemma {:induction false} OldEpochIsDead(w: World, h: Proposal, acts: seq<Action>, b: PublicKey, c: Call)
    requires Reachable(w) && h.configNonce < Read(w, h.guardAddress).configNonce && Uses(c, h)
    ensures !Allowed(Run(w, acts), b, c)
  {
    CountersOnlyRise(w, acts, h.guardAddress);
    if Allowed(Run(w, acts), b, c) {
      UseNeedsCurrentEpoch(Run(w, acts), b, c);
    }
  }

  /** Every registered proposal belongs to the current epoch of its guard or an earlier one. */
  lemma {:induction false} RegisteredEpoch(w: World, a: PublicKey, h: Proposal)
    requires Reachable(w) && a in w.guards && Leaf(w.guards[a].approvals, h) != 0
    ensures h.guardAddress == a && h.configNonce <= w.guards[a].configNonce
  {
    ReachableInv(w);
    assert GuardInv(a, w.guards[a]);
    assert RegisteredInv(a, w.guards[a].parent, w.guards[a].configNonce, h);
  }

  /** Which calls start a new epoch. */
  predicate StartsEpoch(c: Call) {
    c.DoOwnerChange? || c.DoThresholdChange? || c.DoDestroy? || (c.DoEnable? && c.enabled == 0)
  }

  /**
   Whatever was pending on a guard when it changed its owners or threshold, or was disabled or
   destroyed, stays dead in every continuation, including one that enables the guard again.
   */
  lemma {:induction false} PendingDiesWithEpoch(w: World, a: PublicKey, c: Call, h: Proposal, acts: seq<Action>,
                                                b: PublicKey, d: Call)
    requires Reachable(w) && Can(w, Invoke(a, c)) && StartsEpoch(c)
    requires Leaf(w.guards[a].approvals, h) != 0 && Uses(d, h)
    ensures !Allowed(Run(Step(w, Invoke(a, c)), acts), b, d)
  {
    RegisteredEpoch(w, a, h);
    var w' := Step(w, Invoke(a, c));
    ReachableStep(w, Invoke(a, c));
    OldEpochIsDead(w', h, acts, b, d);
  }

  lemma ReachableStep(w: World, act: Action)
    requires Reachable(w)
    ensures Reachable(Step(w, act))
  {
    var balances, acts :| w == Run(Genesis(balances), acts);
    assert (acts + [act])[..|acts|] == acts;
    assert Step(w, act) == Run(Genesis(balances), acts + [act]);
  }

  lemma ReachableRun(w: World, acts: seq<Action>)
    requires Reachable(w)
    ensures Reachable(Run(w, acts))
  {
    var balances, before :| w == Run(Genesis(balances), before);
    RunConcat(Genesis(balances), before, acts);
  }

  // ---- hierarchy ----

  /** In every reachable ledger the hierarchy has two levels and REMOTE proposals live on roots. */
  lemma {:induction false} HierarchyCapped(w: World, a: PublicKey)
    requires Reachable(w) && a in w.guards
    ensures var g := w.guards[a];
            && a != EMPTY_KEY
            && (g.parent != EMPTY_KEY ==>
                  g.parent in w.guards && Initialized(w.guards[g.parent]) && w.guards[g.parent].parent == EMPTY_KEY
                  && g.parent != a)
            && (forall h :: Leaf(g.approvals, h) != 0 && h.destination == REMOTE ==> g.parent == EMPTY_KEY)
            && (Initialized(g) ==> Governance(g.ownersCommitment, g.threshold, g.numOwners))
  {
    ReachableInv(w);
    assert GuardInv(a, w.guards[a]);
  }

  /** An initialized guard stays initialized under the same parent, and a reservation is final. */
  lemma {:induction false} ParentIsForever(w: World, acts: seq<Action>, a: PublicKey)
    requires Reachable(w) && a in w.guards && (Initialized(w.guards[a]) || w.guards[a].parent != EMPTY_KEY)
    ensures var g, g' := w.guards[a], Read(Run(w, acts), a);
            g'.parent == g.parent && (Initialized(g) ==> Initialized(g'))
  {
    ReachableInv(w);
    RunKeeps(w, acts);
  }

  /** A child's allocation can only execute when it allocates to nobody. */
  lemma {:induction false} ChildAllocatesNothing(w: World, a: PublicKey, p: Proposal)
    requires Reachable(w) && Allowed(w, a, DoAllocate(p)) && w.guards[a].parent != EMPTY_KEY
    ensures forall i :: 0 <= i < MAX_RECEIVERS ==> p.receivers[i].address == EMPTY_KEY
  {
    HierarchyCapped(w, a);
    forall i | 0 <= i < MAX_RECEIVERS ensures p.receivers[i].address == EMPTY_KEY {
      if p.receivers[i].address != EMPTY_KEY {
        assert Recipients(w, a, p)[i] == Read(w, p.receivers[i].address);
        HierarchyCapped(w, p.receivers[i].address);
      }
    }
  }

  // ---- child configuration ----

  /**
   A child is reserved once and set up once, and the owners (with their order), threshold and count it
   is set up with are those its reservation published and those hashed into the approved creation.
   */
  lemma {:induction false} ChildConfigurationBound(w: World, a: PublicKey)
    requires Reachable(w) && a in w.guards && w.guards[a].parent != EMPTY_KEY && Initialized(w.guards[a])
    ensures var es := w.guards[a].events;
            && |Reservations(es)| == |Setups(es)| == |Execs(es, CreateKind)| == 1
            && Setups(es)[0] == Reservations(es)[0]
            && Execs(es, CreateKind)[0].data == HashOf(Setups(es)[0])
            && Execs(es, CreateKind)[0].guardAddress == w.guards[a].parent
            && Execs(es, CreateKind)[0].childAccount == a
  {
    ReachableInv(w);
    var g := w.guards[a];
    assert GuardInv(a, g);
    assert Execs(g.events, CreateKind)[0] in Execs(g.events, CreateKind);
  }

  lemma ReservedFacts(w: World, a: PublicKey)
    requires Reachable(w) && a in w.guards && w.guards[a].parent != EMPTY_KEY
    ensures |Reservations(w.guards[a].events)| == 1
    ensures !Initialized(w.guards[a]) ==> w.guards[a].reservedConfigHash == HashOf(Reservations(w.guards[a].events)[0])
  {
    ReachableInv(w);
    assert GuardInv(a, w.guards[a]);
  }

  lemma {:induction false} GuardEvolves(w: World, acts: seq<Action>, a: PublicKey)
    requires Reachable(w) && a in w.guards
    ensures a in Run(w, acts).guards && Evolves(w.guards[a], Run(w, acts).guards[a])
  {
    ReachableInv(w);
    RunKeeps(w, acts);
  }

  /** Between reservation and setup nothing changes what was reserved. */
  lemma {:induction false} ReservationUntouched(w: World, acts: seq<Action>, a: PublicKey)
    requires Reachable(w) && a in w.guards && w.guards[a].parent != EMPTY_KEY && !Initialized(Read(Run(w, acts), a))
    ensures var g, g' := w.guards[a], Read(Run(w, acts), a);
            && Reservations(g'.events) == Reservations(g.events) && |Reservations(g.events)| == 1
            && g'.reservedConfigHash == g.reservedConfigHash == HashOf(Reservations(g.events)[0])
  {
    GuardEvolves(w, acts, a);
    ReachableRun(w, acts);
    ReservedFacts(w, a);
    ReservedFacts(Run(w, acts), a);
    var g, g' := w.guards[a], Run(w, acts).guards[a];
    assert g'.events == g.events + g'.events[|g.events|..];
    ConfigsConcat(g.events, g'.events[|g.events|..]);
  }
}
