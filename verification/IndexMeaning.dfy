/**
 What the index says is what the contract holds: after applying every event of a reachable guard, the
 proposal, approval and execution tables hold exactly the registered proposals, the votes cast and the
 executed proposals, and the latest configuration row holds the changes in the order they were applied.
 */
module IndexMeaning {
  import opened Primitives
  import opened Sequences
  import opened Guards
  import opened GuardInvariant
  import opened Ledger
  import opened LedgerInvariant
  import opened Quorum
  import opened EventRebuild
  import opened EventSourcing
  import opened EventCompleteness
  import opened EventOrder
  import opened IndexTables
  import opened Reorg
  import opened HonestEvents
  import opened ReceiverRows
  import opened EventRoots

  // ---- configuration, read off the emitted events ----

  /** The columns an event changes, with a LOCAL execution told by its type. */
  function ChangesOf(e: Event): (c: Option<ConfigFields>)
  {
    if e.Execution? then (if LocalType(e.txType) then Some(NO_FIELDS.(nonce := Some(e.hash.nonce))) else None)
    else ChangesBy(EMPTY_TABLES, e)
  }

  function EmittedChanges(e: Emitted): Option<ConfigFields> { ChangesOf(e.event) }

  function ChainChanges(e: ChainEvent): Option<ConfigFields> { ChangesOf(e.event) }

  /** Later changes lie over earlier ones. */
  function OverlayAll(f: ConfigFields, cs: seq<ConfigFields>): (r: ConfigFields)
  {
    if cs == [] then f else Overlay(cs[|cs| - 1], OverlayAll(f, cs[..|cs| - 1]))
  }

  lemma {:induction false} OverlayConcat(f: ConfigFields, first: seq<ConfigFields>, second: seq<ConfigFields>)
    ensures OverlayAll(f, first + second) == OverlayAll(OverlayAll(f, first), second)
    decreases |second|
  {
    if second == [] {
      assert first + second == first;
    } else {
      assert (first + second)[..|first + second| - 1] == first + second[..|second| - 1];
      OverlayConcat(f, first, second[..|second| - 1]);
    }
  }

  /** The threshold, owners, owner count, nonce, epoch and multisig flag columns are the guard's. */
  predicate FieldsOf(f: ConfigFields, g: Guard) {
    && f.threshold == Some(g.threshold) && f.numOwners == Some(g.numOwners) && f.nonce == Some(g.nonce)
    && f.configNonce == Some(g.configNonce) && f.owners == Some(OwnerList(g))
       && f.enabled == Some(g.childMultiSigEnabled == 1)
  }

  function FieldsFrom(es: seq<Emitted>): ConfigFields { OverlayAll(NO_FIELDS, Collect(es, EmittedChanges)) }

  /** The changes emitted so far add up to the guard's configuration. */
  predicate ConfigTracks(g: Guard) { Initialized(g) ==> FieldsOf(FieldsFrom(g.events), g) }

  lemma FieldsAppend(es: seq<Emitted>, more: seq<Event>, height: nat)
    ensures FieldsFrom(es + Stamp(more, height)) == OverlayAll(FieldsFrom(es), Collect(more, ChangesOf))
  {
    CollectConcat(es, Stamp(more, height), EmittedChanges);
    StampChanges(more, height);
    OverlayConcat(NO_FIELDS, Collect(es, EmittedChanges), Collect(more, ChangesOf));
  }

  lemma {:induction false} StampChanges(more: seq<Event>, height: nat)
    ensures Collect(Stamp(more, height), EmittedChanges) == Collect(more, ChangesOf)
  {
    if more != [] {
      assert Stamp(more, height)[..|more| - 1] == Stamp(more[..|more| - 1], height);
      StampChanges(more[..|more| - 1], height);
    }
  }

  lemma HeadChanges(e: Event, more: seq<Event>)
    requires forall i :: 0 <= i < |more| ==> ChangesOf(more[i]) == None
    ensures Collect([e] + more, ChangesOf) == if ChangesOf(e).Some? then [ChangesOf(e).value] else []
  {
    CollectConcat([e], more, ChangesOf);
    CollectNone(more, ChangesOf);
    assert [e][..0] == [];
  }

  lemma PairChanges(e: Event, d: Event)
    requires ChangesOf(e).Some? && ChangesOf(d).Some?
    ensures Collect([e, d], ChangesOf) == [ChangesOf(e).value, ChangesOf(d).value]
  {
    assert [e, d][..1] == [e];
    HeadChanges(e, []);
    assert [e] + [] == [e];
  }

  lemma OverlayTwo(f: ConfigFields, a: ConfigFields, b: ConfigFields)
    ensures OverlayAll(f, [a]) == Overlay(a, f) && OverlayAll(f, [a, b]) == Overlay(b, Overlay(a, f))
  {
    assert [a][..0] == [] && [a, b][..1] == [a];
  }

  // ---- one call ----

  /** One event that changes columns, or two. */
  lemma OverlayEvents(f: ConfigFields, e: Event, d: Event)
    requires ChangesOf(e).Some?
    ensures OverlayAll(f, Collect([e], ChangesOf)) == Overlay(ChangesOf(e).value, f)
    ensures ChangesOf(d).Some? ==>
              OverlayAll(f, Collect([e, d], ChangesOf)) == Overlay(ChangesOf(d).value, Overlay(ChangesOf(e).value, f))
  {
    HeadChanges(e, []);
    assert [e] + [] == [e];
    OverlayTwo(f, ChangesOf(e).value, NO_FIELDS);
    if ChangesOf(d).Some? {
      PairChanges(e, d);
      OverlayTwo(f, ChangesOf(e).value, ChangesOf(d).value);
    }
  }

  /** What a call has to show: its events lay the new configuration over the old one. */
  predicate Lays(g: Guard, more: seq<Event>, g': Guard) {
    FieldsOf(OverlayAll(FieldsFrom(g.events), Collect(more, ChangesOf)), g')
  }

  lemma ExecutedLays(g: Guard, p: Proposal, f: ConfigFields, height: nat)
    requires FieldsOf(f, g) && LocalType(p.txType) && p.nonce == g.nonce + 1
    ensures FieldsOf(Overlay(ChangesOf(Executed(g, p)).value, f), AfterTransfer(g, p, height))
  {
  }

  lemma ThresholdLays(g: Guard, p: Proposal, t: nat, f: ConfigFields, height: nat)
    requires FieldsOf(f, g) && LocalType(p.txType) && p.nonce == g.nonce + 1
    ensures var d := ThresholdChange(p, g.threshold, t, g.configNonce + 1);
            FieldsOf(Overlay(ChangesOf(d).value, Overlay(ChangesOf(Executed(g, p)).value, f)),
                     AfterThresholdChange(g, p, t, height))
  {
  }

  lemma OwnersLay(g: Guard, p: Proposal, insertAfter: Option<PublicKey>, f: ConfigFields, height: nat)
    requires FieldsOf(f, g) && LocalType(p.txType) && p.nonce == g.nonce + 1 && WellFormed(p) && ChangedCount(g, p) >= 0
    ensures var d := OwnerChange(p, Target(p), p.txType == ADD_OWNER, ChangedCount(g, p),
                                 ChangedOwners(g, p, insertAfter), g.configNonce + 1);
            FieldsOf(Overlay(ChangesOf(d).value, Overlay(ChangesOf(Executed(g, p)).value, f)),
                     AfterOwnerChange(g, p, insertAfter, height))
  {
  }

  lemma DelegateLays(self: PublicKey, g: Guard, p: Proposal, f: ConfigFields, height: nat)
    requires FieldsOf(f, g) && LocalType(p.txType) && p.nonce == g.nonce + 1 && WellFormed(p)
    ensures var d := Delegate(p, if Target(p) == EMPTY_KEY then self else Target(p));
            FieldsOf(Overlay(ChangesOf(d).value, Overlay(ChangesOf(Executed(g, p)).value, f)),
                     AfterDelegate(self, g, p, height))
  {
  }

  lemma TransferCall(w: World, a: PublicKey, c: Call)
    requires Allowed(w, a, c) && (c.DoTransfer? || c.DoAllocate?) && FieldsOf(FieldsFrom(Read(w, a).events), Read(w, a))
    ensures Lays(Read(w, a), NewEvents(w, a, c), After(w, a, c))
  {
    var g, n := Read(w, a), NewEvents(w, a, c);
    assert n == [Executed(g, c.p)];
    OverlayEvents(FieldsFrom(g.events), n[0], Deployed);
    ExecutedLays(g, c.p, FieldsFrom(g.events), w.height);
  }

  /** The configuration a governance call's two events lay over the old one. */
  lemma NoticeLays(w: World, a: PublicKey, c: Call, f: ConfigFields)
    requires Allowed(w, a, c) && IsLocalExecution(c) && !c.DoTransfer? && !c.DoAllocate? && FieldsOf(f, Read(w, a))
    ensures var n := NewEvents(w, a, c);
            && |n| == 2 && ChangesOf(n[0]).Some? && ChangesOf(n[1]).Some?
            && FieldsOf(Overlay(ChangesOf(n[1]).value, Overlay(ChangesOf(n[0]).value, f)), After(w, a, c))
  {
    var g := Read(w, a);
    if c.DoOwnerChange? { OwnersLay(g, c.p, c.insertAfter, f, w.height); }
    else if c.DoThresholdChange? { ThresholdLays(g, c.p, c.newThreshold, f, w.height); }
    else { DelegateLays(a, g, c.p, f, w.height); }
  }

  lemma LocalLays(w: World, a: PublicKey, c: Call)
    requires Allowed(w, a, c) && IsLocalExecution(c) && FieldsOf(FieldsFrom(Read(w, a).events), Read(w, a))
    ensures Lays(Read(w, a), NewEvents(w, a, c), After(w, a, c))
  {
    if c.DoTransfer? || c.DoAllocate? {
      TransferCall(w, a, c);
    } else {
      var n := NewEvents(w, a, c);
      NoticeLays(w, a, c, FieldsFrom(Read(w, a).events));
      PairLays(FieldsFrom(Read(w, a).events), n);
    }
  }

  lemma PairLays(f: ConfigFields, n: seq<Event>)
    requires |n| == 2 && ChangesOf(n[0]).Some? && ChangesOf(n[1]).Some?
    ensures OverlayAll(f, Collect(n, ChangesOf)) == Overlay(ChangesOf(n[1]).value, Overlay(ChangesOf(n[0]).value, f))
  {
    assert n == [n[0], n[1]];
    OverlayEvents(f, n[0], n[1]);
  }

  /** The last of a lifecycle execution's events carries the flag and the epoch. */
  lemma FlagFields(f: ConfigFields, quiet: seq<Event>, flag: Event)
    requires (forall i :: 0 <= i < |quiet| ==> ChangesOf(quiet[i]) == None) && flag.EnableChildMultiSig?
    ensures OverlayAll(f, Collect(quiet + [flag], ChangesOf))
            == f.(enabled := Some(flag.enabled == 1), configNonce := Some(flag.configNonce))
  {
    CollectConcat(quiet, [flag], ChangesOf);
    CollectNone(quiet, ChangesOf);
    OverlayEvents(f, flag, Deployed);
  }

  /** A lifecycle execution's events: quiet ones, then perhaps the flag. */
  lemma LifecycleEvents(w: World, a: PublicKey, c: Call)
    requires Allowed(w, a, c) && IsRemoteExecution(c)
    ensures var n := NewEvents(w, a, c); var quiet := if c.DoReclaim? then n else n[..|n| - 1];
            && (forall i :: 0 <= i < |quiet| ==> ChangesOf(quiet[i]) == None)
            && (!c.DoReclaim? ==> n != [] && n[|n| - 1].EnableChildMultiSig?
                                  && n[|n| - 1].configNonce == After(w, a, c).configNonce
                                     && n[|n| - 1].enabled == After(w, a, c).childMultiSigEnabled)
  {
  }

  /** A lifecycle execution leaves owners, threshold and nonce alone. */
  lemma LifecycleKeeps(w: World, a: PublicKey, c: Call, f: ConfigFields)
    requires Allowed(w, a, c) && IsRemoteExecution(c) && FieldsOf(f, Read(w, a))
    ensures var g' := After(w, a, c);
            FieldsOf(f.(enabled := Some(g'.childMultiSigEnabled == 1), configNonce := Some(g'.configNonce)), g')
    ensures c.DoReclaim? ==> FieldsOf(f, After(w, a, c))
  {
  }

  lemma RemoteLays(w: World, a: PublicKey, c: Call)
    requires Allowed(w, a, c) && IsRemoteExecution(c) && FieldsOf(FieldsFrom(Read(w, a).events), Read(w, a))
    ensures Lays(Read(w, a), NewEvents(w, a, c), After(w, a, c))
  {
    var f, n := FieldsFrom(Read(w, a).events), NewEvents(w, a, c);
    LifecycleEvents(w, a, c);
    LifecycleKeeps(w, a, c, f);
    if c.DoReclaim? {
      CollectNone(n, ChangesOf);
    } else {
      assert n == n[..|n| - 1] + [n[|n| - 1]];
      FlagFields(f, n[..|n| - 1], n[|n| - 1]);
    }
  }

  lemma SetupLays(f: ConfigFields, setup: Event, quiet: seq<Event>)
    requires setup.Setup? && forall i :: 0 <= i < |quiet| ==> ChangesOf(quiet[i]) == None
    ensures var r := OverlayAll(f, Collect([setup] + quiet, ChangesOf));
            && r.threshold == Some(setup.threshold) && r.numOwners == Some(setup.numOwners) && r.nonce == Some(0)
            && r.configNonce == Some(0) && r.owners == Some(setup.owners) && r.enabled == Some(true)
  {
    HeadChanges(setup, quiet);
    OverlayTwo(f, ChangesOf(setup).value, NO_FIELDS);
  }

  lemma InitLays(w: World, a: PublicKey, c: Call)
    requires Allowed(w, a, c) && (c.DoSetup? || c.DoSetupChild?)
             && (!Initialized(Read(w, a)) ==> Read(w, a).configNonce == 0)
    ensures Lays(Read(w, a), NewEvents(w, a, c), After(w, a, c))
  {
    var n := NewEvents(w, a, c);
    assert n == [n[0]] + n[1..];
    SetupLays(FieldsFrom(Read(w, a).events), n[0], n[1..]);
  }

  lemma CallConfig(w: World, a: PublicKey, c: Call)
    requires Allowed(w, a, c) && ConfigTracks(Read(w, a)) && (!Initialized(Read(w, a)) ==> Read(w, a).configNonce == 0)
    ensures ConfigTracks(After(w, a, c))
  {
    CallEmits(w, a, c);
    if c.DoReserve? { ReserveUninitialized(w, a, c); }
    else {
      CallLays(w, a, c);
      LaidTracks(Read(w, a), NewEvents(w, a, c), w.height, After(w, a, c));
    }
  }

  lemma ReserveUninitialized(w: World, a: PublicKey, c: Call)
    requires Allowed(w, a, c) && c.DoReserve?
    ensures !Initialized(After(w, a, c))
  {
  }

  lemma VotersInitialized(w: World, a: PublicKey, c: Call)
    requires Allowed(w, a, c) && (IsVote(c) || IsLocalExecution(c) || IsRemoteExecution(c))
    ensures Initialized(Read(w, a))
  {
  }

  lemma CallLays(w: World, a: PublicKey, c: Call)
    requires Allowed(w, a, c) && ConfigTracks(Read(w, a)) && (!Initialized(Read(w, a)) ==> Read(w, a).configNonce == 0)
             && !c.DoReserve?
    ensures Lays(Read(w, a), NewEvents(w, a, c), After(w, a, c))
  {
    if c.DoSetup? || c.DoSetupChild? { InitLays(w, a, c); }
    else {
      VotersInitialized(w, a, c);
      if IsVote(c) { VoteLays(w, a, c); }
      else if IsLocalExecution(c) { LocalLays(w, a, c); }
      else { RemoteLays(w, a, c); }
    }
  }

  lemma LaidTracks(g: Guard, more: seq<Event>, height: nat, g': Guard)
    requires g'.events == g.events + Stamp(more, height) && Lays(g, more, g')
    ensures ConfigTracks(g')
  {
    FieldsAppend(g.events, more, height);
  }

  lemma VoteLays(w: World, a: PublicKey, c: Call)
    requires Allowed(w, a, c) && IsVote(c) && FieldsOf(FieldsFrom(Read(w, a).events), Read(w, a))
    ensures Lays(Read(w, a), NewEvents(w, a, c), After(w, a, c))
  {
    VoteEvents(w, a, c);
    VotesChangeNothing(NewEvents(w, a, c));
    VoteKeepsConfig(w, a, c);
  }

  lemma VotesChangeNothing(more: seq<Event>)
    requires forall j :: 0 <= j < |more| ==> more[j].Proposed? || more[j].Approval? || more[j].ReceiverSlot?
    ensures Collect(more, ChangesOf) == []
  {
    CollectNone(more, ChangesOf);
  }

  lemma VoteKeepsConfig(w: World, a: PublicKey, c: Call)
    requires Allowed(w, a, c) && IsVote(c)
    ensures forall f :: FieldsOf(f, Read(w, a)) ==> FieldsOf(f, After(w, a, c))
  {
  }

  lemma StepConfig(w: World, act: Action, a: PublicKey)
    requires a in w.guards ==> ConfigTracks(w.guards[a]) && (!Initialized(w.guards[a]) ==> w.guards[a].configNonce == 0)
    requires a in Step(w, act).guards
    ensures ConfigTracks(Step(w, act).guards[a])
  {
    if Can(w, act) && act.Invoke? && act.at == a { CallConfig(w, a, act.call); }
  }

  lemma UninitializedEpoch(self: PublicKey, g: Guard)
    requires GuardInv(self, g)
    ensures !Initialized(g) ==> g.configNonce == 0
  {
  }

  lemma {:induction false} RunConfig(balances: map<PublicKey, nat>, acts: seq<Action>, a: PublicKey)
    requires a in Run(Genesis(balances), acts).guards
    ensures ConfigTracks(Run(Genesis(balances), acts).guards[a])
  {
    if acts != [] {
      var init := acts[..|acts| - 1];
      var w := Run(Genesis(balances), init);
      if a in w.guards {
        RunConfig(balances, init, a);
        RunGuardInv(balances, init, a);
        UninitializedEpoch(a, w.guards[a]);
      }
      StepConfig(w, acts[|acts| - 1], a);
    }
  }

  // ---- what an event depends on ----

  predicate Proposes(e: Event, h: Proposal) { e.Proposed? && e.hash == h }

  predicate Approves(e: Event, k: VoteKey) { e.Approval? && e.hash == k.hash && e.approver == k.voter }

  predicate ExecutesLocally(e: Event, h: Proposal) { e.Execution? && LocalType(e.txType) && e.hash == h }

  predicate UsesProposal(e: Event) { e.Approval? || (e.Execution? && LocalType(e.txType)) }

  /** Proposals, approvals and LOCAL executions name this guard, other executions name its parent. */
  predicate Addressed(e: Event, self: PublicKey) {
    && (e.Proposed? || UsesProposal(e) ==> e.hash.guardAddress == self)
    && (e.Execution? && !LocalType(e.txType) ==> e.hash.guardAddress != self)
  }

  predicate Announced(es: seq<Emitted>, h: Proposal) { exists i :: 0 <= i < |es| && Proposes(es[i].event, h) }

  predicate Seconded(es: seq<Emitted>, k: VoteKey) { exists j :: 0 <= j < |es| && Approves(es[j].event, k) }

  /**
   A vote or LOCAL execution follows its proposal, a proposal comes with its proposer's approval, and every leaf has
   its proposal.
   */
  predicate DependsInv(g: Guard, self: PublicKey) {
    var es := g.events;
    && (forall j :: 0 <= j < |es| && UsesProposal(es[j].event) ==> Announced(es[..j], es[j].event.hash))
    && (forall i :: 0 <= i < |es| && es[i].event.Proposed? ==>
          Seconded(es, VoteKey(es[i].event.hash, es[i].event.proposer)))
    && (forall i :: 0 <= i < |es| ==> Addressed(es[i].event, self))
    && (forall h :: h in g.approvals ==> Announced(es, h))
  }

  /** The same of one call's events, with the proposal either registered before or first in the batch. */
  predicate BatchDepends(g: Guard, more: seq<Event>, g': Guard, self: PublicKey) {
    && (forall j :: 0 <= j < |more| && UsesProposal(more[j]) ==>
          more[j].hash in g.approvals || (j > 0 && Proposes(more[0], more[j].hash)))
    && (forall i :: 0 <= i < |more| && more[i].Proposed? ==>
          Approves(more[|more| - 1], VoteKey(more[i].hash, more[i].proposer)))
    && (forall i :: 0 <= i < |more| ==> Addressed(more[i], self))
    && (forall h :: h in g'.approvals ==> h in g.approvals || (more != [] && Proposes(more[0], h)))
  }

  lemma AnnouncedLater(es: seq<Emitted>, more: seq<Emitted>, h: Proposal)
    requires Announced(es, h)
    ensures Announced(es + more, h)
  {
    var i :| 0 <= i < |es| && Proposes(es[i].event, h);
    assert (es + more)[i] == es[i];
  }

  lemma SecondedLater(es: seq<Emitted>, more: seq<Emitted>, k: VoteKey)
    requires Seconded(es, k)
    ensures Seconded(es + more, k)
  {
    var i :| 0 <= i < |es| && Approves(es[i].event, k);
    assert (es + more)[i] == es[i];
  }

  /** One new event finds its proposal among everything before it. */
  lemma NewEventAnnounced(g: Guard, more: seq<Event>, height: nat, j: nat, h: Proposal)
    requires (forall h :: h in g.approvals ==> Announced(g.events, h)) && j <= |more|
    requires h in g.approvals || (j > 0 && Proposes(more[0], h))
    ensures Announced(g.events + Stamp(more, height)[..j], h)
  {
    if h in g.approvals {
      AnnouncedLater(g.events, Stamp(more, height)[..j], h);
    } else {
      assert Proposes((g.events + Stamp(more, height)[..j])[|g.events|].event, h);
    }
  }

  lemma DependsAppend(g: Guard, more: seq<Event>, height: nat, g': Guard, self: PublicKey)
    requires DependsInv(g, self) && BatchDepends(g, more, g', self) && g'.events == g.events + Stamp(more, height)
    ensures DependsInv(g', self)
  {
    var es := g'.events;
    forall j | 0 <= j < |es| && UsesProposal(es[j].event) ensures Announced(es[..j], es[j].event.hash) {
      UserAnnounced(g, more, height, g', self, j);
    }
    forall i | 0 <= i < |es| && es[i].event.Proposed?
      ensures Seconded(es, VoteKey(es[i].event.hash, es[i].event.proposer)) {
      ProposalSeconded(g, more, height, g', self, i);
    }
    AddressedAppend(g.events, more, height, self);
    forall h | h in g'.approvals ensures Announced(es, h) {
      assert Stamp(more, height)[..|more|] == Stamp(more, height);
      NewEventAnnounced(g, more, height, |more|, h);
    }
  }

  lemma UserAnnounced(g: Guard, more: seq<Event>, height: nat, g': Guard, self: PublicKey, j: nat)
    requires DependsInv(g, self) && BatchDepends(g, more, g', self) && g'.events == g.events + Stamp(more, height)
    requires j < |g'.events| && UsesProposal(g'.events[j].event)
    ensures Announced(g'.events[..j], g'.events[j].event.hash)
  {
    var n := |g.events|;
    AppendedParts(g.events, Stamp(more, height), j);
    if j >= n { NewEventAnnounced(g, more, height, j - n, more[j - n].hash); }
  }

  lemma AppendedParts(es: seq<Emitted>, more: seq<Emitted>, j: nat)
    requires j < |es + more|
    ensures (es + more)[j] == if j < |es| then es[j] else more[j - |es|]
    ensures (es + more)[..j] == if j < |es| then es[..j] else es + more[..j - |es|]
  {
  }

  lemma ProposalSeconded(g: Guard, more: seq<Event>, height: nat, g': Guard, self: PublicKey, i: nat)
    requires DependsInv(g, self) && BatchDepends(g, more, g', self) && g'.events == g.events + Stamp(more, height)
    requires i < |g'.events| && g'.events[i].event.Proposed?
    ensures Seconded(g'.events, VoteKey(g'.events[i].event.hash, g'.events[i].event.proposer))
  {
    var es, n := g'.events, |g.events|;
    if i < n {
      assert es[i] == g.events[i];
      SecondedLater(g.events, Stamp(more, height), VoteKey(es[i].event.hash, es[i].event.proposer));
    } else {
      assert es[i].event == more[i - n] && es[|es| - 1].event == more[|more| - 1];
    }
  }

  lemma AddressedAppend(es: seq<Emitted>, more: seq<Event>, height: nat, self: PublicKey)
    requires (forall i :: 0 <= i < |es| ==> Addressed(es[i].event, self))
             && (forall i :: 0 <= i < |more| ==> Addressed(more[i], self))
    ensures var all := es + Stamp(more, height); forall i :: 0 <= i < |all| ==> Addressed(all[i].event, self)
  {
  }

  lemma VoteFacts(w: World, a: PublicKey, c: Call)
    requires Allowed(w, a, c) && IsVote(c)
    ensures var n := NewEvents(w, a, c);
            && (c.DoPropose? ==> n[0] == Proposed(c.p, c.voter)) && c.p.guardAddress == a
            && (c.DoApprove? ==> c.p in Read(w, a).approvals)
            && forall h :: h in After(w, a, c).approvals ==> h in Read(w, a).approvals || h == c.p
  {
  }

  lemma VoteDepends(w: World, a: PublicKey, c: Call)
    requires Allowed(w, a, c) && IsVote(c)
    ensures BatchDepends(Read(w, a), NewEvents(w, a, c), After(w, a, c), a)
  {
    VoteEvents(w, a, c);
    VoteFacts(w, a, c);
  }

  lemma ExecutionFacts(w: World, a: PublicKey, c: Call)
    requires Allowed(w, a, c) && (IsLocalExecution(c) || IsRemoteExecution(c))
    ensures IsLocalExecution(c) ==> c.p.guardAddress == a && c.p in Read(w, a).approvals
    ensures IsRemoteExecution(c) ==> c.p.guardAddress == Read(w, a).parent && Read(w, a).parent != EMPTY_KEY
  {
  }

  lemma ExecutionDepends(w: World, a: PublicKey, c: Call)
    requires Allowed(w, a, c) && (IsLocalExecution(c) || IsRemoteExecution(c)) && Read(w, a).parent != a
    ensures BatchDepends(Read(w, a), NewEvents(w, a, c), After(w, a, c), a)
  {
    ExecutionEffect(w, a, c);
    ExecutionFacts(w, a, c);
    NoticesQuiet(w, a, c);
    NoticesPlain(w, a, c);
    NoticesAddressed(NewEvents(w, a, c)[0], NoticesOf(w, a, c), a);
  }

  lemma NoticesAddressed(executed: Event, notices: seq<Event>, self: PublicKey)
    requires executed.Execution? && Addressed(executed, self)
    requires forall i :: 0 <= i < |notices| ==> Quiet(notices[i]) && !notices[i].Execution?
    ensures var more := [executed] + notices;
            forall i :: 0 <= i < |more| ==>
              Addressed(more[i], self) && !more[i].Proposed? && (UsesProposal(more[i]) ==> i == 0)
  {
  }

  lemma InitDepends(w: World, a: PublicKey, c: Call)
    requires Allowed(w, a, c) && (c.DoSetup? || c.DoReserve? || c.DoSetupChild?) && Read(w, a).parent != a
             && (!Initialized(Read(w, a)) ==> Read(w, a).approvals == map[])
    ensures BatchDepends(Read(w, a), NewEvents(w, a, c), After(w, a, c), a)
  {
    InitEvents(w, a, c);
    QuietDepends(NewEvents(w, a, c), a);
    InitApprovals(w, a, c);
  }

  lemma InitEvents(w: World, a: PublicKey, c: Call)
    requires Allowed(w, a, c) && (c.DoSetup? || c.DoReserve? || c.DoSetupChild?)
    ensures var n := NewEvents(w, a, c);
            forall i :: 0 <= i < |n| ==>
              Quiet(n[i]) && (n[i].Execution? ==> n[i].hash.guardAddress == Read(w, a).parent)
  {
  }

  lemma InitApprovals(w: World, a: PublicKey, c: Call)
    requires Allowed(w, a, c) && (c.DoSetup? || c.DoReserve? || c.DoSetupChild?)
             && (!Initialized(Read(w, a)) ==> Read(w, a).approvals == map[])
    ensures After(w, a, c).approvals == map[]
  {
  }

  lemma QuietDepends(more: seq<Event>, self: PublicKey)
    requires forall i ::
               0 <= i < |more| ==> Quiet(more[i]) && (more[i].Execution? ==> more[i].hash.guardAddress != self)
    ensures forall i :: 0 <= i < |more| ==> Addressed(more[i], self) && !UsesProposal(more[i]) && !more[i].Proposed?
  {
  }

  lemma CallDepends(w: World, a: PublicKey, c: Call)
    requires Allowed(w, a, c) && DependsInv(Read(w, a), a) && Read(w, a).parent != a
             && (!Initialized(Read(w, a)) ==> Read(w, a).approvals == map[])
    ensures DependsInv(After(w, a, c), a)
  {
    CallEmits(w, a, c);
    if IsVote(c) { VoteDepends(w, a, c); }
    else if IsLocalExecution(c) || IsRemoteExecution(c) { ExecutionDepends(w, a, c); }
    else { InitDepends(w, a, c); }
    DependsAppend(Read(w, a), NewEvents(w, a, c), w.height, After(w, a, c), a);
  }

  lemma StepDepends(w: World, act: Action, a: PublicKey)
    requires a in w.guards ==>
               DependsInv(w.guards[a], a) && w.guards[a].parent != a
               && (!Initialized(w.guards[a]) ==> w.guards[a].approvals == map[])
    requires a in Step(w, act).guards
    ensures DependsInv(Step(w, act).guards[a], a)
  {
    if Can(w, act) && act.Invoke? && act.at == a { CallDepends(w, a, act.call); }
    else if Can(w, act) && act.Deploy? && act.at == a { DeployDepends(w.height, a); }
    else { assert a in w.guards && Step(w, act).guards[a] == w.guards[a]; }
  }

  lemma DeployDepends(height: nat, a: PublicKey)
    ensures DependsInv(Emit(BLANK, [Deployed], height), a)
  {
  }

  lemma ParentIsOther(w: World, a: PublicKey)
    requires Inv(w) && a in w.guards
    ensures w.guards[a].parent != a && (!Initialized(w.guards[a]) ==> w.guards[a].approvals == map[])
  {
    assert GuardInv(a, w.guards[a]);
  }

  lemma {:induction false} RunDepends(balances: map<PublicKey, nat>, acts: seq<Action>, a: PublicKey)
    requires a in Run(Genesis(balances), acts).guards
    ensures DependsInv(Run(Genesis(balances), acts).guards[a], a)
  {
    if acts != [] {
      var init := acts[..|acts| - 1];
      var w := Run(Genesis(balances), init);
      if a in w.guards {
        RunDepends(balances, init, a);
        RunKeeps(Genesis(balances), init);
        ParentIsOther(w, a);
      }
      StepDepends(w, acts[|acts| - 1], a);
    }
  }

  // ---- what the tables hold after a prefix ----

  predicate ApprovedBefore(c: seq<ChainEvent>, n: nat, k: VoteKey) {
    exists i :: 0 <= i < n <= |c| && Approves(c[i].event, k)
  }

  predicate ExecutedBefore(c: seq<ChainEvent>, n: nat, h: Proposal) {
    exists i :: 0 <= i < n <= |c| && ExecutesLocally(c[i].event, h)
  }

  /** Every vote and LOCAL execution is applied after its proposal. */
  predicate Usable(c: seq<ChainEvent>, self: PublicKey) {
    && (forall j :: 0 <= j < |c| && UsesProposal(c[j].event) ==> ProposedBefore(c, j, c[j].event.hash))
    && (forall j :: 0 <= j < |c| ==> Addressed(c[j].event, self))
  }

  lemma Repeated(c: seq<ChainEvent>, n: nat) returns (i: nat)
    requires n < |c| && FingerprintOf(c[n]) in Indexed(c[..n]).raw
    ensures i < n && FingerprintOf(c[i]) == FingerprintOf(c[n])
  {
    RawGrows(EMPTY_TABLES, c[..n], 0, FingerprintOf(c[n]));
    i :| 0 <= i < n && FingerprintOf(c[..n][i]) == FingerprintOf(c[n]);
  }

  lemma {:induction false} ProposalsAt(c: seq<ChainEvent>, n: nat, h: Proposal)
    requires n <= |c|
    ensures h in Indexed(c[..n]).proposals <==> ProposedBefore(c, n, h)
  {
    if n > 0 {
      ProposalsAt(c, n - 1, h);
      IndexedSnoc(c, n - 1);
      ProposedSnoc(c, n - 1, h);
      RowStep(Indexed(c[..n - 1]), c[n - 1], n - 1, h);
      if FingerprintOf(c[n - 1]) in Indexed(c[..n - 1]).raw { var i := Repeated(c, n - 1); }
    }
  }

  /** An execution finds its proposal exactly when it is LOCAL, a vote always does. */
  lemma Lookup(c: seq<ChainEvent>, self: PublicKey, n: nat)
    requires Usable(c, self) && n < |c| && (c[n].event.Execution? || c[n].event.Approval?)
    ensures c[n].event.hash in Indexed(c[..n]).proposals <==> UsesProposal(c[n].event)
  {
    ProposalsAt(c, n, c[n].event.hash);
  }

  lemma {:induction false} ApprovalsAt(c: seq<ChainEvent>, self: PublicKey, n: nat, k: VoteKey)
    requires Usable(c, self) && n <= |c|
    ensures k in Indexed(c[..n]).approvals <==> ApprovedBefore(c, n, k)
  {
    if n > 0 {
      ApprovalsAt(c, self, n - 1, k);
      IndexedSnoc(c, n - 1);
      assert ApprovedBefore(c, n, k) <==> ApprovedBefore(c, n - 1, k) || Approves(c[n - 1].event, k);
      if FingerprintOf(c[n - 1]) in Indexed(c[..n - 1]).raw { var i := Repeated(c, n - 1); }
      else if c[n - 1].event.Approval? { Lookup(c, self, n - 1); }
    }
  }

  lemma {:induction false} ExecutionsAt(c: seq<ChainEvent>, self: PublicKey, n: nat, h: Proposal)
    requires Usable(c, self) && n <= |c|
    ensures h in Indexed(c[..n]).executions <==> ExecutedBefore(c, n, h)
  {
    if n > 0 {
      ExecutionsAt(c, self, n - 1, h);
      IndexedSnoc(c, n - 1);
      assert ExecutedBefore(c, n, h) <==> ExecutedBefore(c, n - 1, h) || ExecutesLocally(c[n - 1].event, h);
      if FingerprintOf(c[n - 1]) in Indexed(c[..n - 1]).raw { var i := Repeated(c, n - 1); }
      else if c[n - 1].event.Execution? { Lookup(c, self, n - 1); }
    }
  }

  /**
   Two events with one fingerprint are slots of one proposal: transactions differ, and a transaction repeats nothing
   else.
   */
  predicate OnlySlotsRepeat(c: seq<ChainEvent>) {
    forall i, j :: 0 <= i < j < |c| && FingerprintOf(c[i]) == FingerprintOf(c[j]) ==> c[j].event.ReceiverSlot?
  }

  function LastFields(rows: seq<ConfigRow>): ConfigFields { if rows == [] then NO_FIELDS else rows[|rows| - 1].fields }

  lemma SnapshotFields(t: Tables, e: ChainEvent, order: nat)
    requires Ordered(t.configs) && FingerprintOf(e) !in t.raw && ChangesBy(t, e.event) == ChangesOf(e.event)
    ensures LastFields(Ingest(t, e, order).configs) ==
            if ChangesOf(e.event).Some? then Overlay(ChangesOf(e.event).value, LastFields(t.configs))
              else LastFields(t.configs)
    ensures Ingest(t, e, order).configs != [] <==> t.configs != [] || ChangesOf(e.event).Some?
  {
    LatestIsLast(t.configs);
  }

  lemma PrefixOrdered(c: seq<ChainEvent>, n: nat)
    requires HeightsAscend(c) && n <= |c|
    ensures Ordered(Indexed(c[..n]).configs)
  {
    IndexedOrdered(c[..n]);
  }

  /** The last row holds the changes of the first `n` events. */
  predicate FieldsAt(t: Tables, c: seq<ChainEvent>, n: nat)
    requires n <= |c|
  {
    LastFields(t.configs) == OverlayAll(NO_FIELDS, Collect(c[..n], ChainChanges))
      && (t.configs != [] <==> Collect(c[..n], ChainChanges) != [])
  }

  lemma FieldsNext(t: Tables, c: seq<ChainEvent>, n: nat)
    requires n < |c| && FieldsAt(t, c, n) && Ordered(t.configs)
    requires if FingerprintOf(c[n]) in t.raw then ChangesOf(c[n].event).None?
               else ChangesBy(t, c[n].event) == ChangesOf(c[n].event)
    ensures FieldsAt(Ingest(t, c[n], n), c, n + 1)
  {
    CollectSnoc(c, n, ChainChanges);
    if FingerprintOf(c[n]) !in t.raw { SnapshotFields(t, c[n], n); }
    if ChangesOf(c[n].event).Some? { OverlaySnoc(Collect(c[..n], ChainChanges), ChangesOf(c[n].event).value); }
  }

  lemma LookupChanges(c: seq<ChainEvent>, self: PublicKey, n: nat)
    requires Usable(c, self) && n < |c|
    ensures ChangesBy(Indexed(c[..n]), c[n].event) == ChangesOf(c[n].event)
  {
    if c[n].event.Execution? { Lookup(c, self, n); }
  }

  lemma {:induction false} ConfigsAt(c: seq<ChainEvent>, self: PublicKey, n: nat)
    requires Usable(c, self) && HeightsAscend(c) && OnlySlotsRepeat(c) && n <= |c|
    ensures FieldsAt(Indexed(c[..n]), c, n)
  {
    if n > 0 {
      ConfigsAt(c, self, n - 1);
      IndexedSnoc(c, n - 1);
      if FingerprintOf(c[n - 1]) in Indexed(c[..n - 1]).raw { var i := Repeated(c, n - 1); }
      LookupChanges(c, self, n - 1);
      PrefixOrdered(c, n - 1);
      FieldsNext(Indexed(c[..n - 1]), c, n - 1);
    }
  }

  lemma OverlaySnoc(cs: seq<ConfigFields>, x: ConfigFields)
    ensures OverlayAll(NO_FIELDS, cs + [x]) == Overlay(x, OverlayAll(NO_FIELDS, cs))
  {
    assert (cs + [x])[..|cs|] == cs;
  }

  // ---- the index tracks the guard ----

  /** Nothing but emitted events is delivered, and each of them is, at `at[i]` being where the i-th was emitted. */
  ghost predicate DeliversAll(c: seq<ChainEvent>, es: seq<Emitted>, at: seq<nat>, tx: nat -> Option<nat>) {
    Delivers(c, es, at, tx) && forall j :: 0 <= j < |es| ==> Shown(c, es[j])
  }

  predicate Shown(c: seq<ChainEvent>, e: Emitted) {
    exists i :: 0 <= i < |c| && c[i].event == e.event && c[i].height == e.height
  }

  lemma DeliveredUsable(c: seq<ChainEvent>, g: Guard, self: PublicKey, at: seq<nat>, tx: nat -> Option<nat>, now: nat)
    requires DeliversAll(c, g.events, at, tx) && InApplyOrder(c) && DependsInv(g, self) && HeightsInv(g.events, now)
    ensures Usable(c, self)
  {
    forall j | 0 <= j < |c| && UsesProposal(c[j].event) ensures ProposedBefore(c, j, c[j].event.hash) {
      assert Announced(g.events[..at[j]], g.events[at[j]].event.hash);
      UsedAfterProposal(c, g.events, at, tx, now, j);
    }
  }

  /** The proposal of a use is at most as high and ranks lower, so apply order puts it first. */
  lemma UsedAfterProposal(c: seq<ChainEvent>, es: seq<Emitted>, at: seq<nat>, tx: nat -> Option<nat>, now: nat, j: nat)
    requires DeliversAll(c, es, at, tx) && InApplyOrder(c) && HeightsInv(es, now) && j < |c| && UsesProposal(c[j].event)
    requires Announced(es[..at[j]], c[j].event.hash)
    ensures ProposedBefore(c, j, c[j].event.hash)
  {
    var k :| 0 <= k < at[j] && Proposes(es[..at[j]][k].event, c[j].event.hash);
    assert Shown(c, es[k]);
    var i :| 0 <= i < |c| && c[i].event == es[k].event && c[i].height == es[k].height;
    assert c[i].height <= c[j].height;
    assert !(j < i);
  }

  lemma AnnouncedLeaf(g: Guard, self: PublicKey, h: Proposal)
    requires MapsInv(g) && DependsInv(g, self)
    ensures Announced(g.events, h) <==> Leaf(g.approvals, h) != 0
  {
    if i :| 0 <= i < |g.events| && Proposes(g.events[i].event, h) { PastProposal(g, i); }
  }

  lemma SecondedLeaf(g: Guard, self: PublicKey, k: VoteKey)
    requires MapsInv(g) && DependsInv(g, self) && SubjectsInv(g)
    ensures Seconded(g.events, k) <==> Leaf(g.voteNullifiers, k) != 0
  {
    if i :| 0 <= i < |g.events| && Approves(g.events[i].event, k) { PastApproval(g, i); }
    if Leaf(g.voteNullifiers, k) != 0 {
      var i := VoteEvent(g, k);
      if g.events[i].event.Approval? { assert Approves(g.events[i].event, k); }
    }
  }

  /** Every nullified vote was reported by an event. */
  lemma VoteEvent(g: Guard, k: VoteKey) returns (i: nat)
    requires MapsInv(g) && Leaf(g.voteNullifiers, k) != 0
    ensures i < |g.events|
    ensures var e := g.events[i].event;
            (e.Proposed? && e.hash == k.hash && e.proposer == k.voter)
            || (e.Approval? && e.hash == k.hash && e.approver == k.voter)
  {
    var rows := RowsOf(g.events);
    RaisedLeaf(map[], rows, VoteWrite, k);
    var r :| r in rows && WritesTo(r, VoteWrite, k, Leaf(g.voteNullifiers, k));
    i :| 0 <= i < |rows| && rows[i] == r;
    assert r == RowOf(g.events[i]);
  }

  lemma {:induction false} ExecsMember(es: seq<Emitted>, h: Proposal)
    ensures h in Execs(es, LocalKind) <==> exists i :: 0 <= i < |es| && ExecutesLocally(es[i].event, h)
  {
    if es != [] {
      var init := es[..|es| - 1];
      ExecsMember(init, h);
      if i :| 0 <= i < |init| && ExecutesLocally(init[i].event, h) { assert es[i] == init[i]; }
      if i :| 0 <= i < |es| && ExecutesLocally(es[i].event, h) { assert i < |init| ==> init[i] == es[i]; }
    }
  }

  /** What holds of every reachable guard's events. */
  lemma ReachableFacts(w: World, a: PublicKey)
    requires Reachable(w) && a in w.guards
    ensures var g := w.guards[a];
            DependsInv(g, a) && SubjectsInv(g) && ConfigTracks(g) && MapsInv(g) && HeightsInv(g.events, w.height)
  {
    var balances, acts :| w == Run(Genesis(balances), acts);
    RunDepends(balances, acts, a);
    RunSubjects(balances, acts, a);
    RunConfig(balances, acts, a);
    RunEvents(balances, acts, a, _ => 0);
  }

  /** A delivered chain mentions a subject exactly when the guard's events do. */
  lemma SameProposals(c: seq<ChainEvent>, es: seq<Emitted>, at: seq<nat>, tx: nat -> Option<nat>, h: Proposal)
    requires DeliversAll(c, es, at, tx)
    ensures ProposedBefore(c, |c|, h) <==> Announced(es, h)
  {
    if j :| 0 <= j < |es| && Proposes(es[j].event, h) { assert Shown(c, es[j]); }
    if i :| 0 <= i < |c| && Proposes(c[i].event, h) { assert Proposes(es[at[i]].event, h); }
  }

  lemma SameApprovals(c: seq<ChainEvent>, es: seq<Emitted>, at: seq<nat>, tx: nat -> Option<nat>, k: VoteKey)
    requires DeliversAll(c, es, at, tx)
    ensures ApprovedBefore(c, |c|, k) <==> Seconded(es, k)
  {
    if j :| 0 <= j < |es| && Approves(es[j].event, k) { assert Shown(c, es[j]); }
    if i :| 0 <= i < |c| && Approves(c[i].event, k) { assert Approves(es[at[i]].event, k); }
  }

  lemma SameExecutions(c: seq<ChainEvent>, es: seq<Emitted>, at: seq<nat>, tx: nat -> Option<nat>, h: Proposal)
    requires DeliversAll(c, es, at, tx)
    ensures ExecutedBefore(c, |c|, h) <==> exists j :: 0 <= j < |es| && ExecutesLocally(es[j].event, h)
  {
    if j :| 0 <= j < |es| && ExecutesLocally(es[j].event, h) { assert Shown(c, es[j]); }
    if i :| 0 <= i < |c| && ExecutesLocally(c[i].event, h) { assert ExecutesLocally(es[at[i]].event, h); }
  }

  /**
   Once every event of a reachable guard is applied in apply order, a proposal is indexed exactly when it is
   registered, an approval exactly when the vote was cast, an execution exactly when the leaf is executed.
   */
  lemma {:induction false} TablesTrackGuard(w: World, a: PublicKey, c: seq<ChainEvent>, at: seq<nat>,
                                            tx: nat -> Option<nat>, h: Proposal, k: VoteKey)
    requires Reachable(w) && a in w.guards && DeliversAll(c, w.guards[a].events, at, tx) && InApplyOrder(c)
    ensures var g, t := w.guards[a], Indexed(c);
            && (h in t.proposals <==> Leaf(g.approvals, h) != 0)
            && (k in t.approvals <==> Leaf(g.voteNullifiers, k) != 0)
            && (h in t.executions <==> Leaf(g.approvals, h) == EXECUTED_MARKER)
  {
    var g := w.guards[a];
    ReachableFacts(w, a);
    DeliveredUsable(c, g, a, at, tx, w.height);
    assert c[..|c|] == c;
    ProposalsAt(c, |c|, h);
    ApprovalsAt(c, a, |c|, k);
    ExecutionsAt(c, a, |c|, h);
    SameProposals(c, g.events, at, tx, h);
    SameApprovals(c, g.events, at, tx, k);
    SameExecutions(c, g.events, at, tx, h);
    AnnouncedLeaf(g, a, h);
    SecondedLeaf(g, a, k);
    ExecsMember(g.events, h);
    LeafCountsVoters(w, a, h);
  }

  /** The latest row holds, column by column, the last applied change. */
  lemma LatestRow(w: World, a: PublicKey, c: seq<ChainEvent>, at: seq<nat>, tx: nat -> Option<nat>)
    requires Reachable(w) && a in w.guards && DeliversAll(c, w.guards[a].events, at, tx) && InApplyOrder(c)
             && OnlySlotsRepeat(c)
    requires Collect(c, ChainChanges) != []
    ensures var latest := Latest(Indexed(c).configs);
            latest.Some? && latest.value.fields == OverlayAll(NO_FIELDS, Collect(c, ChainChanges))
  {
    ReachableFacts(w, a);
    DeliveredUsable(c, w.guards[a], a, at, tx, w.height);
    assert c[..|c|] == c;
    ConfigsAt(c, a, |c|);
    PrefixOrdered(c, |c|);
    LatestIsLast(Indexed(c).configs);
  }
}
