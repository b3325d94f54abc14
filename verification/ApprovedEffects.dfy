/**
 What owners can rely on: an execution installs what its proposal says, an allocation reaches children alone, and
 a closed child stands still. None of these statements mentions the conditions of the contract methods.
 */
module ApprovedEffects {
  import opened Primitives
  import opened ListCommitment
  import opened Guards
  import opened GuardInvariant
  import opened Ledger
  import opened LedgerInvariant
  import opened Quorum
  import opened Executions
  import opened EventSourcing
  import opened Money
  import opened Multisig
  import opened Refinement

  // ---- one execution ----

  /** Whatever threshold the prover supplies, the one installed is the proposal's. */
  lemma {:induction false} ThresholdIsApproved(w: World, a: PublicKey, p: Proposal, t: nat)
    requires Reachable(w) && Can(w, Invoke(a, DoThresholdChange(p, t)))
    ensures var g' := Step(w, Invoke(a, DoThresholdChange(p, t))).guards[a]; p.data == Num(g'.threshold)
  {
    AcceptsExactly(w, a, DoThresholdChange(p, t));
    ActsExactly(w, a, DoThresholdChange(p, t));
  }

  /** Whatever flag the prover supplies, the one installed is the proposal's. */
  lemma {:induction false} FlagIsApproved(w: World, a: PublicKey, p: Proposal, enabled: nat)
    requires Reachable(w) && Can(w, Invoke(a, DoEnable(p, enabled)))
    ensures var g' := Step(w, Invoke(a, DoEnable(p, enabled))).guards[a]; p.data == Num(g'.childMultiSigEnabled)
  {
    AcceptsExactly(w, a, DoEnable(p, enabled));
  }

  /**
   Wherever the prover inserts, the list installed by an addition is the proposal's, and a removal leaves out its
   target.
   */
  lemma {:induction false} OwnersAreApproved(w: World, a: PublicKey, p: Proposal, insertAfter: Option<PublicKey>)
    requires Reachable(w) && Can(w, Invoke(a, DoOwnerChange(p, insertAfter)))
    ensures var g, g' := w.guards[a], Step(w, Invoke(a, DoOwnerChange(p, insertAfter))).guards[a];
            || (p.txType == ADD_OWNER && p.data == g'.ownersCommitment)
            || (p.txType == REMOVE_OWNER && g'.ownersCommitment == OwnersHash(Without(OwnerList(g), Named(p))))
  {
    AcceptsExactly(w, a, DoOwnerChange(p, insertAfter));
    ActsExactly(w, a, DoOwnerChange(p, insertAfter));
  }

  /** The delegate installed is the one the proposal names, or the guard itself if it names none. */
  lemma {:induction false} DelegateIsApproved(w: World, a: PublicKey, p: Proposal)
    requires Reachable(w) && Can(w, Invoke(a, DoDelegate(p)))
    ensures var g' := Step(w, Invoke(a, DoDelegate(p))).guards[a];
            p.txType == SET_DELEGATE && g'.delegate == if Named(p) == EMPTY_KEY then a else Named(p)
  {
    AcceptsExactly(w, a, DoDelegate(p));
    ActsExactly(w, a, DoDelegate(p));
  }

  // ---- whole runs ----

  /** What a setup and the executed proposals say, taken one after the other. */
  function Told(a: PublicKey, es: seq<Emitted>): (v: Vault)
  {
    if es == [] then FRESH
    else
      var before, e := Told(a, es[..|es| - 1]), es[|es| - 1].event;
      if e.Setup? then Founded(before, e.owners, e.threshold)
      else if e.Execution? && LocalType(e.hash.txType) then Executing(before, a, e.hash)
      else if e.Execution? && LifecycleType(e.hash.txType) then Obeying(before, e.hash)
      else before
  }

  /** The configuration: owners, threshold, epoch, flag, delegate and the executions. */
  function Settings(v: Vault): Vault { v.(votes := {}, parent := EMPTY_KEY, reserved := ZERO) }

  /** Neither a setup nor an execution of the guard's own or for its parent. */
  predicate Untold(e: Event) {
    !e.Setup? && (e.Execution? ==> !LocalType(e.hash.txType) && !LifecycleType(e.hash.txType))
  }

  lemma {:induction false} ToldQuiet(a: PublicKey, es: seq<Emitted>, more: seq<Emitted>)
    requires forall i :: 0 <= i < |more| ==> Untold(more[i].event)
    ensures Told(a, es + more) == Told(a, es)
    decreases |more|
  {
    if more == [] {
      assert es + more == es;
    } else {
      assert (es + more)[..|es + more| - 1] == es + more[..|more| - 1];
      ToldQuiet(a, es, more[..|more| - 1]);
    }
  }

  /** One telling event followed by untold ones. */
  lemma {:induction false} ToldHead(a: PublicKey, es: seq<Emitted>, more: seq<Event>, height: nat)
    requires more != [] && forall i :: 1 <= i < |more| ==> Untold(more[i])
    ensures Told(a, es + Stamp(more, height)) == Told(a, es + [Emitted(more[0], height)])
  {
    var stamped := Stamp(more, height);
    assert stamped == [stamped[0]] + stamped[1..];
    assert es + stamped == (es + [stamped[0]]) + stamped[1..];
    ToldQuiet(a, es + [stamped[0]], stamped[1..]);
  }

  lemma {:induction false} ToldOne(a: PublicKey, es: seq<Emitted>, e: Emitted)
    ensures Told(a, es + [e]) ==
            if e.event.Setup? then Founded(Told(a, es), e.event.owners, e.event.threshold)
            else if e.event.Execution? && LocalType(e.event.hash.txType) then Executing(Told(a, es), a, e.event.hash)
            else if e.event.Execution? && LifecycleType(e.event.hash.txType) then Obeying(Told(a, es), e.event.hash)
            else Told(a, es)
  {
    assert (es + [e])[..|es|] == es;
  }

  /** Executing one proposal on vaults of the same settings gives the same settings. */
  lemma SettingsOnly(v: Vault, u: Vault, a: PublicKey, p: Proposal)
    requires Settings(v) == Settings(u)
    ensures Settings(Executing(v, a, p)) == Settings(Executing(u, a, p))
    ensures Settings(Obeying(v, p)) == Settings(Obeying(u, p))
  {
  }

  // ---- one call ----

  lemma {:induction false} UntoldCall(w: World, a: PublicKey, c: Call)
    requires Allowed(w, a, c) && (IsVote(c) || c.DoReserve?)
    ensures forall i :: 0 <= i < |NewEvents(w, a, c)| ==> Untold(NewEvents(w, a, c)[i])
  {
  }

  lemma {:induction false} TellingCall(w: World, a: PublicKey, c: Call)
    requires Allowed(w, a, c) && !IsVote(c) && !c.DoReserve?
    ensures var es := NewEvents(w, a, c); es != [] && forall i :: 1 <= i < |es| ==> Untold(es[i])
    ensures var head := NewEvents(w, a, c)[0];
            if IsLocalExecution(c) || IsRemoteExecution(c) then head.Execution? && head.hash == c.p
            else head.Setup? && head.owners == Active(c.owners, c.numOwners) && head.threshold == c.threshold
  {
    if IsLocalExecution(c) || IsRemoteExecution(c) { NoticesTellNothing(w, a, c); }
  }

  lemma {:induction false} NoticesTellNothing(w: World, a: PublicKey, c: Call)
    requires Allowed(w, a, c) && (IsLocalExecution(c) || IsRemoteExecution(c))
    ensures forall i :: 0 <= i < |NoticesOf(w, a, c)| ==> Untold(NoticesOf(w, a, c)[i])
  {
  }

  /** Effects on the settings, in terms of the proposal. */
  lemma {:induction false} EffectOnSettings(w: World, a: PublicKey, c: Call)
    requires Reachable(w) && Allowed(w, a, c)
    ensures var v, r := VaultOf(Read(w, a)), VaultOf(After(w, a, c));
            && (IsVote(c) || c.DoReserve? ==> Settings(r) == Settings(v))
            && (IsLocalExecution(c) ==> r == Executing(v, a, c.p) && LocalType(c.p.txType))
            && (IsRemoteExecution(c) ==> r == Obeying(v, c.p) && LifecycleType(c.p.txType))
            && (c.DoSetup? || c.DoSetupChild? ==>
                  Settings(r) == Settings(Founded(v, Active(c.owners, c.numOwners), c.threshold)))
  {
    ActsExactly(w, a, c);
    EffectByKind(VaultOf(Read(w, a)), a, c);
    if IsLocalExecution(c) || IsRemoteExecution(c) { ExecutionEffect(w, a, c); }
    else if c.DoSetup? || c.DoSetupChild? { ActiveSlots(w, a, c); }
  }

  lemma {:induction false} ActiveSlots(w: World, a: PublicKey, c: Call)
    requires Allowed(w, a, c) && (c.DoSetup? || c.DoSetupChild?)
    ensures c.numOwners <= |c.owners| && Active(c.owners, c.numOwners) == c.owners[..c.numOwners]
  {
  }

  lemma {:induction false} EffectByKind(v: Vault, a: PublicKey, c: Call)
    ensures IsVote(c) || c.DoReserve? ==> Settings(Effect(v, a, c)) == Settings(v)
    ensures IsLocalExecution(c) ==> Effect(v, a, c) == Executing(v, a, c.p)
    ensures IsRemoteExecution(c) ==> Effect(v, a, c) == Obeying(v, c.p)
    ensures (c.DoSetup? || c.DoSetupChild?) && c.numOwners <= |c.owners| ==>
              Settings(Effect(v, a, c)) == Settings(Founded(v, c.owners[..c.numOwners], c.threshold))
  {
  }

  lemma {:induction false} FoundedSettings(v: Vault, u: Vault, owners: seq<PublicKey>, threshold: nat)
    requires Settings(v) == Settings(u)
    ensures Settings(Founded(v, owners, threshold)) == Settings(Founded(u, owners, threshold))
  {
  }

  lemma {:induction false} QuietCallTells(w: World, a: PublicKey, c: Call)
    requires Reachable(w) && Allowed(w, a, c) && (IsVote(c) || c.DoReserve?)
    requires Settings(Told(a, Read(w, a).events)) == Settings(VaultOf(Read(w, a)))
    ensures Settings(Told(a, After(w, a, c).events)) == Settings(VaultOf(After(w, a, c)))
  {
    CallEmits(w, a, c);
    EffectOnSettings(w, a, c);
    UntoldCall(w, a, c);
    ToldQuiet(a, Read(w, a).events, Stamp(NewEvents(w, a, c), w.height));
  }

  lemma {:induction false} TellingCallTells(w: World, a: PublicKey, c: Call)
    requires Reachable(w) && Allowed(w, a, c) && !IsVote(c) && !c.DoReserve?
    requires Settings(Told(a, Read(w, a).events)) == Settings(VaultOf(Read(w, a)))
    ensures Settings(Told(a, After(w, a, c).events)) == Settings(VaultOf(After(w, a, c)))
  {
    var es, more := Read(w, a).events, NewEvents(w, a, c);
    CallEmits(w, a, c);
    EffectOnSettings(w, a, c);
    TellingCall(w, a, c);
    ToldHead(a, es, more, w.height);
    ToldOne(a, es, Emitted(more[0], w.height));
    if IsLocalExecution(c) || IsRemoteExecution(c) {
      SettingsOnly(Told(a, es), VaultOf(Read(w, a)), a, c.p);
    } else {
      FoundedSettings(Told(a, es), VaultOf(Read(w, a)), Active(c.owners, c.numOwners), c.threshold);
    }
  }

  lemma {:induction false} CallTells(w: World, a: PublicKey, c: Call)
    requires Reachable(w) && Allowed(w, a, c)
    requires Settings(Told(a, Read(w, a).events)) == Settings(VaultOf(Read(w, a)))
    ensures Settings(Told(a, After(w, a, c).events)) == Settings(VaultOf(After(w, a, c)))
  {
    if IsVote(c) || c.DoReserve? { QuietCallTells(w, a, c); } else { TellingCallTells(w, a, c); }
  }

  lemma {:induction false} StepTells(w: World, act: Action, a: PublicKey)
    requires Reachable(w) && a in Step(w, act).guards
    requires a in w.guards ==> Settings(Told(a, w.guards[a].events)) == Settings(VaultOf(w.guards[a]))
    ensures var g' := Step(w, act).guards[a]; Settings(Told(a, g'.events)) == Settings(VaultOf(g'))
  {
    if Can(w, act) && act.Deploy? && act.at == a {
      DeployedIsFresh(w.height);
      var es := Emit(BLANK, [Deployed], w.height).events;
      assert es == [] + [Emitted(Deployed, w.height)];
      ToldOne(a, [], Emitted(Deployed, w.height));
    } else if Can(w, act) && act.Invoke? && act.at == a {
      CallTells(w, a, act.call);
    }
  }

  lemma {:induction false} RunTells(balances: map<PublicKey, nat>, acts: seq<Action>, a: PublicKey)
    requires a in Run(Genesis(balances), acts).guards
    ensures var g := Run(Genesis(balances), acts).guards[a]; Settings(Told(a, g.events)) == Settings(VaultOf(g))
  {
    if acts != [] {
      var init := acts[..|acts| - 1];
      var w := Run(Genesis(balances), init);
      if a in w.guards { RunTells(balances, init, a); }
      StepTells(w, acts[|acts| - 1], a);
    }
  }

  /**
   In every reachable ledger a guard's owners, threshold, epoch, flag, delegate and executions are what its setup and
   its executed proposals say, taken in order. Nothing else ever changed them.
   */
  lemma {:induction false} ConfigurationIsApproved(w: World, a: PublicKey)
    requires Reachable(w) && a in w.guards
    ensures var g, told := w.guards[a], Told(a, w.guards[a].events);
            && OwnerList(g) == told.owners && g.threshold == told.threshold && g.configNonce == told.epoch
            && (g.childMultiSigEnabled == 1 <==> told.open) && g.delegate == told.delegate
            && Execs(g.events, LocalKind) == told.executed && Execs(g.events, LifecycleKind) == told.forParent
  {
    var balances, acts :| w == Run(Genesis(balances), acts);
    RunTells(balances, acts, a);
    SettingsSay(w.guards[a], Told(a, w.guards[a].events));
  }

  lemma SettingsSay(g: Guard, told: Vault)
    requires Settings(told) == Settings(VaultOf(g))
    ensures OwnerList(g) == told.owners && g.threshold == told.threshold && g.configNonce == told.epoch
    ensures (g.childMultiSigEnabled == 1 <==> told.open) && g.delegate == told.delegate
    ensures Execs(g.events, LocalKind) == told.executed && Execs(g.events, LifecycleKind) == told.forParent
  {
    assert Settings(told).owners == told.owners && Settings(VaultOf(g)).owners == OwnerList(g);
  }

  // ---- allocations ----

  /** Every recipient of an allocation is an initialized child of the allocating guard. */
  lemma {:induction false} AllocationsReachChildren(w: World, a: PublicKey, p: Proposal, b: PublicKey)
    requires Reachable(w) && Can(w, Invoke(a, DoAllocate(p))) && b != a
    requires Received(Outflow(w, a, DoAllocate(p)), b) > 0
             || (b != EMPTY_KEY && exists r :: r in p.receivers && r.address == b)
    ensures b in w.guards && Initialized(w.guards[b]) && w.guards[b].parent == a
  {
    AcceptsExactly(w, a, DoAllocate(p));
    ExecutionPaysWhatWasApproved(w, a, DoAllocate(p));
    if Received(Outflow(w, a, DoAllocate(p)), b) > 0 {
      AddressedTo(p.receivers, b);
      EmptyGetsNothing(w, a, p);
    }
  }

  lemma {:induction false} AddressedTo(rs: seq<Receiver>, b: PublicKey)
    requires AmountsTo(rs, b) > 0
    ensures exists r :: r in rs && r.address == b && r.amount > 0
  {
    var init, last := rs[..|rs| - 1], rs[|rs| - 1];
    assert rs == init + [last];
    if last.address == b && last.amount > 0 { assert last in rs; } else { AddressedTo(init, b); }
  }

  lemma {:induction false} EmptyGetsNothing(w: World, a: PublicKey, p: Proposal)
    requires Reachable(w) && Allowed(w, a, DoAllocate(p))
    ensures forall r :: r in p.receivers && r.address == EMPTY_KEY ==> r.amount == 0
  {
    ExecuteIs(w, a, p, ALLOCATE_CHILD);
  }

  // ---- closed children ----

  /** While its flag is not 1, a child accepts no vote and no execution of its own. */
  lemma {:induction false} ClosedChildRefuses(w: World, a: PublicKey, c: Call)
    requires Reachable(w) && a in w.guards && w.guards[a].parent != EMPTY_KEY && w.guards[a].childMultiSigEnabled != 1
    requires IsVote(c) || IsLocalExecution(c)
    ensures !Allowed(w, a, c)
  {
    AcceptsExactly(w, a, c);
    LookIsRead(w, a);
  }

  /** What a child decides itself. */
  predicate SameDecisions(g: Guard, g': Guard) {
    && g'.approvals == g.approvals && g'.voteNullifiers == g.voteNullifiers && g'.nonce == g.nonce
    && g'.ownersCommitment == g.ownersCommitment && g'.threshold == g.threshold && g'.numOwners == g.numOwners
    && g'.delegate == g.delegate && g'.parent == g.parent
  }

  lemma {:induction false} ClosedCall(w: World, a: PublicKey, c: Call)
    requires Allowed(w, a, c) && !IsVote(c) && !IsLocalExecution(c) && Read(w, a).parent != EMPTY_KEY
    requires After(w, a, c).childMultiSigEnabled != 1
    ensures SameDecisions(Read(w, a), After(w, a, c))
  {
  }

  lemma {:induction false} ClosedStep(w: World, act: Action, a: PublicKey)
    requires Reachable(w) && a in w.guards && w.guards[a].parent != EMPTY_KEY && w.guards[a].childMultiSigEnabled != 1
    requires a in Step(w, act).guards && Step(w, act).guards[a].childMultiSigEnabled != 1
    ensures SameDecisions(w.guards[a], Step(w, act).guards[a])
  {
    if Can(w, act) && act.Invoke? && act.at == a {
      if IsVote(act.call) || IsLocalExecution(act.call) { ClosedChildRefuses(w, a, act.call); }
      else { ClosedCall(w, a, act.call); }
    }
  }

  /** From the closing of a child until its flag is 1 again, nothing it decides itself changes, in any run. */
  lemma {:induction false} ClosedChildStandsStill(w: World, acts: seq<Action>, a: PublicKey)
    requires Reachable(w) && a in w.guards && w.guards[a].parent != EMPTY_KEY
    requires forall n :: 0 <= n <= |acts| ==> Read(Run(w, acts[..n]), a).childMultiSigEnabled != 1
    ensures a in Run(w, acts).guards && SameDecisions(w.guards[a], Run(w, acts).guards[a])
  {
    assert acts[..|acts|] == acts;
    GuardEvolves(w, acts, a);
    if acts != [] {
      var init := acts[..|acts| - 1];
      forall n | 0 <= n <= |init| ensures Read(Run(w, init[..n]), a).childMultiSigEnabled != 1 {
        assert init[..n] == acts[..n];
      }
      ClosedChildStandsStill(w, init, a);
      assert init[..|init|] == init;
      assert acts[..|init|] == init;
      ReachableRun(w, init);
      ClosedStep(Run(w, init), acts[|acts| - 1], a);
    }
  }
}
