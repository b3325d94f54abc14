/**
 When the latest configuration row is right, column by column. A column shows what its decisive event
 carries: the carrier in the highest block, of the highest lifecycle rank there, last among ties.
 */
module ConfigColumns {
  import opened Primitives
  import opened Sequences
  import opened Guards
  import opened GuardInvariant
  import opened Ledger
  import opened LedgerInvariant
  import opened EventRebuild
  import opened EventSourcing
  import opened EventRoots
  import opened EventOrder
  import opened IndexTables
  import opened Reorg
  import opened HonestEvents
  import opened IndexMeaning

  datatype Column = ThresholdColumn | CountColumn | NonceColumn | EpochColumn | OwnersColumn | FlagColumn

  datatype Cell = Number(n: int) | Keys(keys: seq<PublicKey>) | Flag(on: bool)

  function NumberCell(v: Option<nat>): Option<Cell> { if v.Some? then Some(Number(v.value)) else None }

  function CellOf(f: ConfigFields, col: Column): (c: Option<Cell>)
  {
    match col
    case ThresholdColumn => NumberCell(f.threshold)
    case CountColumn => if f.numOwners.Some? then Some(Number(f.numOwners.value)) else None
    case NonceColumn => NumberCell(f.nonce)
    case EpochColumn => NumberCell(f.configNonce)
    case OwnersColumn => if f.owners.Some? then Some(Keys(f.owners.value)) else None
    case FlagColumn => if f.enabled.Some? then Some(Flag(f.enabled.value)) else None
  }

  function GuardCell(g: Guard, col: Column): (c: Cell)
  {
    match col
    case ThresholdColumn => Number(g.threshold)
    case CountColumn => Number(g.numOwners)
    case NonceColumn => Number(g.nonce)
    case EpochColumn => Number(g.configNonce)
    case OwnersColumn => Keys(OwnerList(g))
    case FlagColumn => Flag(g.childMultiSigEnabled == 1)
  }

  /** A row is right when each of its columns is. */
  lemma FieldsByColumn(f: ConfigFields, g: Guard)
    ensures FieldsOf(f, g) <==> forall col :: CellOf(f, col) == Some(GuardCell(g, col))
  {
    if forall col :: CellOf(f, col) == Some(GuardCell(g, col)) {
      assert CellOf(f, ThresholdColumn) == Some(GuardCell(g, ThresholdColumn));
      assert CellOf(f, CountColumn) == Some(GuardCell(g, CountColumn));
      assert CellOf(f, NonceColumn) == Some(GuardCell(g, NonceColumn));
      assert CellOf(f, EpochColumn) == Some(GuardCell(g, EpochColumn));
      assert CellOf(f, OwnersColumn) == Some(GuardCell(g, OwnersColumn));
      assert CellOf(f, FlagColumn) == Some(GuardCell(g, FlagColumn));
    }
  }

  /** What an event writes into a column. */
  function Carried(e: Event, col: Column): (c: Option<Cell>)
  {
    if ChangesOf(e).Some? then CellOf(ChangesOf(e).value, col) else None
  }

  predicate Carries(e: Event, col: Column) { Carried(e, col).Some? }

  /** The last write into a column. */
  function LastCarried(c: seq<ChainEvent>, col: Column): (r: Option<Cell>)
  {
    if c == [] then None
    else if Carries(c[|c| - 1].event, col) then Carried(c[|c| - 1].event, col)
    else LastCarried(c[..|c| - 1], col)
  }

  lemma OverlayCell(changes: ConfigFields, before: ConfigFields, col: Column)
    ensures CellOf(Overlay(changes, before), col) == OrElse(CellOf(changes, col), CellOf(before, col))
  {
  }

  lemma {:induction false} LastCarriedShows(c: seq<ChainEvent>, col: Column)
    ensures CellOf(OverlayAll(NO_FIELDS, Collect(c, ChainChanges)), col) == LastCarried(c, col)
  {
    if c != [] {
      var init, last := c[..|c| - 1], c[|c| - 1];
      LastCarriedShows(init, col);
      if ChangesOf(last.event).Some? {
        OverlaySnoc(Collect(init, ChainChanges), ChangesOf(last.event).value);
        OverlayCell(ChangesOf(last.event).value, OverlayAll(NO_FIELDS, Collect(init, ChainChanges)), col);
      }
    }
  }

  // ---- the decisive event ----

  /** In the highest block with carriers, of the highest rank there, and last of those. */
  predicate Decisive(c: seq<ChainEvent>, col: Column, i: nat) {
    && i < |c| && Carries(c[i].event, col)
    && (forall j :: 0 <= j < |c| && Carries(c[j].event, col) ==> ApplyRank(c[j]) <= ApplyRank(c[i]))
    && (forall j :: i < j < |c| && Carries(c[j].event, col) ==> ApplyRank(c[j]) < ApplyRank(c[i]))
  }

  lemma {:induction false} DecisiveExists(c: seq<ChainEvent>, col: Column, some: nat) returns (i: nat)
    requires some < |c| && Carries(c[some].event, col)
    ensures Decisive(c, col, i)
  {
    var init, last := c[..|c| - 1], c[|c| - 1];
    if j :| 0 <= j < |init| && Carries(init[j].event, col) {
      i := DecisiveExists(init, col, j);
      assert init[i] == c[i];
      assert forall j :: 0 <= j < |init| ==> init[j] == c[j];
      if Carries(last.event, col) && ApplyRank(last) >= ApplyRank(c[i]) { i := |c| - 1; }
    } else {
      assert forall j :: 0 <= j < |init| ==> init[j] == c[j];
      i := |c| - 1;
    }
  }

  lemma {:induction false} LastCarriedAt(c: seq<ChainEvent>, col: Column, i: nat)
    requires i < |c| && Carries(c[i].event, col) && forall j :: i < j < |c| ==> !Carries(c[j].event, col)
    ensures LastCarried(c, col) == Carried(c[i].event, col)
  {
    if i < |c| - 1 { LastCarriedAt(c[..|c| - 1], col, i); }
  }

  /** In apply order the decisive event is the last write. */
  lemma DecisiveIsLast(c: seq<ChainEvent>, col: Column, i: nat)
    requires InApplyOrder(c) && Decisive(c, col, i)
    ensures LastCarried(c, col) == Carried(c[i].event, col)
  {
    RankOrders(c);
    LastCarriedAt(c, col, i);
  }

  /** Among the events of the decisive rank, the decisive one is the last write. */
  lemma {:induction false} DecisiveOfRank(c: seq<ChainEvent>, col: Column, i: nat)
    requires Decisive(c, col, i)
    ensures LastCarried(OfRank(c, ApplyRank, ApplyRank(c[i])), col) == Carried(c[i].event, col)
  {
    var init, last, v := c[..|c| - 1], c[|c| - 1], ApplyRank(c[i]);
    var picked := OfRank(init, ApplyRank, v);
    assert (picked + [last])[..|picked|] == picked;
    if i < |c| - 1 {
      assert Decisive(init, col, i);
      DecisiveOfRank(init, col, i);
    }
  }

  /** Where carriers never fall in rank, the last write is decisive. */
  lemma AscendingDecisive(d: seq<ChainEvent>, col: Column, i: nat)
    requires Decisive(d, col, i)
    requires forall j, k ::
               0 <= j < k < |d| && Carries(d[j].event, col) && Carries(d[k].event, col) ==>
                 ApplyRank(d[j]) <= ApplyRank(d[k])
    ensures LastCarried(d, col) == Carried(d[i].event, col)
  {
    LastCarriedAt(d, col, i);
  }

  lemma SortedInOrder(d: seq<ChainEvent>)
    ensures InApplyOrder(OrderForApply(d))
  {
    SortBySorts(d, ApplyRank);
    RankOrders(OrderForApply(d));
  }

  lemma SameDecisiveRank(d: seq<ChainEvent>, c: seq<ChainEvent>, col: Column, i: nat, k: nat)
    requires SameElements(c, d) && Decisive(d, col, i) && Decisive(c, col, k)
    ensures ApplyRank(c[k]) == ApplyRank(d[i])
  {
    assert d[i] in c && c[k] in d;
  }

  /** Sorting for application keeps what the decisive event writes. */
  lemma SortedWrites(d: seq<ChainEvent>, col: Column, i: nat)
    requires Decisive(d, col, i)
    ensures LastCarried(OrderForApply(d), col) == Carried(d[i].event, col)
  {
    var c := OrderForApply(d);
    OrderKeepsElements(d);
    assert d[i] in c;
    var some :| 0 <= some < |c| && c[some] == d[i];
    var k := DecisiveExists(c, col, some);
    SameDecisiveRank(d, c, col, i, k);
    DecisiveOfRank(d, col, i);
    DecisiveOfRank(c, col, k);
    SortByStable(d, ApplyRank, ApplyRank(d[i]));
    SortedInOrder(d);
    DecisiveIsLast(c, col, k);
  }

  // ---- epochs and nonces count events ----

  /** The events that start an epoch. */
  predicate Starts(e: Event) { e.OwnerChange? || e.ThresholdChange? || (e.EnableChildMultiSig? && e.enabled == 0) }

  function Epochs(es: seq<Emitted>): (n: nat)
  {
    if es == [] then 0 else Epochs(es[..|es| - 1]) + (if Starts(es[|es| - 1].event) then 1 else 0)
  }

  lemma {:induction false} EpochsConcat(es: seq<Emitted>, more: seq<Emitted>)
    ensures Epochs(es + more) == Epochs(es) + Epochs(more)
    decreases |more|
  {
    if more == [] {
      assert es + more == es;
    } else {
      assert (es + more)[..|es + more| - 1] == es + more[..|more| - 1];
      EpochsConcat(es, more[..|more| - 1]);
    }
  }

  lemma {:induction false} EpochsNone(es: seq<Emitted>)
    requires forall i :: 0 <= i < |es| ==> !Starts(es[i].event)
    ensures Epochs(es) == 0
  {
    if es != [] { EpochsNone(es[..|es| - 1]); }
  }

  lemma {:induction false} EpochsSome(es: seq<Emitted>, i: nat)
    requires i < |es| && Starts(es[i].event)
    ensures Epochs(es) > 0
  {
    if i < |es| - 1 { EpochsSome(es[..|es| - 1], i); }
  }

  /** Equal counts mean that nothing was counted in between. */
  lemma EpochsEqual(es: seq<Emitted>, n: nat)
    requires n <= |es|
    ensures Epochs(es[..n]) == Epochs(es) <==> forall j :: n <= j < |es| ==> !Starts(es[j].event)
  {
    var late := es[n..];
    assert es == es[..n] + late;
    EpochsConcat(es[..n], late);
    if forall j :: n <= j < |es| ==> !Starts(es[j].event) { EpochsNone(late); }
    else {
      var j :| n <= j < |es| && Starts(es[j].event);
      EpochsSome(late, j - n);
    }
  }

  /** An epoch in an event counts the starts up to it. */
  predicate ShowsEpoch(es: seq<Emitted>, j: nat)
    requires j < |es|
  {
    Carries(es[j].event, EpochColumn) ==> Carried(es[j].event, EpochColumn) == Some(Number(Epochs(es[..j + 1])))
  }

  /**
   Each epoch in an event counts the starts up to it, the guard's epoch counts all, and nothing is written before
   setup.
   */
  predicate EpochsInv(g: Guard) {
    var es := g.events;
    && (forall j :: 0 <= j < |es| ==> ShowsEpoch(es, j))
    && Epochs(es) == g.configNonce
    && (forall i, j :: 0 <= i < j < |es| && es[j].event.Setup? ==> ChangesOf(es[i].event) == None)
    && (!Initialized(g) ==> forall i :: 0 <= i < |es| ==> ChangesOf(es[i].event) == None)
  }

  function Started(more: seq<Event>): (n: nat)
  {
    if more == [] then 0 else Started(more[..|more| - 1]) + (if Starts(more[|more| - 1]) then 1 else 0)
  }

  lemma {:induction false} StartedStamp(more: seq<Event>, height: nat)
    ensures Epochs(Stamp(more, height)) == Started(more)
  {
    if more != [] {
      assert Stamp(more, height)[..|more| - 1] == Stamp(more[..|more| - 1], height);
      StartedStamp(more[..|more| - 1], height);
    }
  }

  predicate ShowsStarted(epoch: nat, more: seq<Event>, j: nat)
    requires j < |more|
  {
    Carries(more[j], EpochColumn) ==> Carried(more[j], EpochColumn) == Some(Number(epoch + Started(more[..j + 1])))
  }

  /** What one call's events have to show. */
  predicate BatchEpochs(g: Guard, more: seq<Event>, g': Guard) {
    && (forall j :: 0 <= j < |more| ==> ShowsStarted(g.configNonce, more, j))
    && g'.configNonce == g.configNonce + Started(more)
    && (forall j :: 0 <= j < |more| && more[j].Setup? ==> j == 0 && !Initialized(g))
    && (!Initialized(g') ==> !Initialized(g) && forall j :: 0 <= j < |more| ==> ChangesOf(more[j]) == None)
  }

  lemma NewEpochs(g: Guard, more: seq<Event>, height: nat, n: nat)
    requires Epochs(g.events) == g.configNonce && n <= |more|
    ensures Epochs((g.events + Stamp(more, height))[..|g.events| + n]) == g.configNonce + Started(more[..n])
  {
    assert (g.events + Stamp(more, height))[..|g.events| + n] == g.events + Stamp(more[..n], height);
    EpochsConcat(g.events, Stamp(more[..n], height));
    StartedStamp(more[..n], height);
  }

  lemma EpochsAppend(g: Guard, more: seq<Event>, height: nat, g': Guard)
    requires EpochsInv(g) && BatchEpochs(g, more, g') && g'.events == g.events + Stamp(more, height)
    ensures EpochsInv(g')
  {
    var es := g'.events;
    forall j | 0 <= j < |es| ensures ShowsEpoch(es, j) { EpochAt(g, more, height, g', j); }
    NewEpochs(g, more, height, |more|);
    assert es[..|es|] == es && more[..|more|] == more;
    SetupFirst(g, more, height, g');
  }

  lemma {:induction false} EpochAt(g: Guard, more: seq<Event>, height: nat, g': Guard, j: nat)
    requires EpochsInv(g) && BatchEpochs(g, more, g') && g'.events == g.events + Stamp(more, height)
    requires j < |g'.events|
    ensures ShowsEpoch(g'.events, j)
  {
    if j < |g.events| {
      assert ShowsEpoch(g.events, j);
      OldEpochAt(g, g', j);
    } else {
      assert ShowsStarted(g.configNonce, more, j - |g.events|);
      NewEpochAt(g, more, height, g', j - |g.events|);
    }
  }

  lemma OldEpochAt(g: Guard, g': Guard, j: nat)
    requires j < |g.events| && g.events <= g'.events && ShowsEpoch(g.events, j)
    ensures ShowsEpoch(g'.events, j)
  {
    assert g'.events[..j + 1] == g.events[..j + 1];
  }

  lemma NewEpochAt(g: Guard, more: seq<Event>, height: nat, g': Guard, k: nat)
    requires Epochs(g.events) == g.configNonce && g'.events == g.events + Stamp(more, height) && k < |more|
             && ShowsStarted(g.configNonce, more, k)
    ensures ShowsEpoch(g'.events, |g.events| + k)
  {
    NewEpochs(g, more, height, k + 1);
    assert g'.events[|g.events| + k].event == more[k];
  }

  lemma SetupFirst(g: Guard, more: seq<Event>, height: nat, g': Guard)
    requires EpochsInv(g) && BatchEpochs(g, more, g') && g'.events == g.events + Stamp(more, height)
    ensures var es := g'.events;
            forall i, j :: 0 <= i < j < |es| && es[j].event.Setup? ==> ChangesOf(es[i].event) == None
    ensures !Initialized(g') ==> forall i :: 0 <= i < |g'.events| ==> ChangesOf(g'.events[i].event) == None
  {
    var es, n := g'.events, |g.events|;
    assert forall i :: n <= i < |es| ==> es[i].event == more[i - n];
  }

  // ---- one call ----

  lemma {:induction false} StartedNone(more: seq<Event>)
    requires forall j :: 0 <= j < |more| ==> !Starts(more[j])
    ensures Started(more) == 0
  {
    if more != [] { StartedNone(more[..|more| - 1]); }
  }

  /** Events that neither start an epoch nor carry one, except perhaps the last. */
  lemma LastStarts(g: Guard, more: seq<Event>, g': Guard)
    requires more != [] && Initialized(g) && Initialized(g') && !more[|more| - 1].Setup?
    requires forall j :: 0 <= j < |more| - 1 ==> !Starts(more[j]) && !Carries(more[j], EpochColumn) && !more[j].Setup?
    requires var last := more[|more| - 1];
             && g'.configNonce == g.configNonce + (if Starts(last) then 1 else 0)
             && (Carries(last, EpochColumn) ==> Carried(last, EpochColumn) == Some(Number(g'.configNonce)))
    ensures BatchEpochs(g, more, g')
  {
    var init := more[..|more| - 1];
    StartedNone(init);
    assert more[..|more|] == more;
  }

  lemma VoteEpochs(w: World, a: PublicKey, c: Call)
    requires Allowed(w, a, c) && IsVote(c)
    ensures BatchEpochs(Read(w, a), NewEvents(w, a, c), After(w, a, c))
  {
    VoteEvents(w, a, c);
    VotersInitialized(w, a, c);
    VoteKeepsEpoch(w, a, c);
    LastStarts(Read(w, a), NewEvents(w, a, c), After(w, a, c));
  }

  lemma VoteKeepsEpoch(w: World, a: PublicKey, c: Call)
    requires Allowed(w, a, c) && IsVote(c)
    ensures After(w, a, c).configNonce == Read(w, a).configNonce && Initialized(After(w, a, c))
  {
  }

  /** The last event of an execution is the only one that can carry or start an epoch. */
  predicate EndsWithEpoch(g: Guard, n: seq<Event>, g': Guard) {
    && n != [] && !n[|n| - 1].Setup? && Initialized(g')
    && (forall j :: 0 <= j < |n| - 1 ==> !Starts(n[j]) && !Carries(n[j], EpochColumn) && !n[j].Setup?)
    && g'.configNonce == g.configNonce + (if Starts(n[|n| - 1]) then 1 else 0)
    && (Carries(n[|n| - 1], EpochColumn) ==> Carried(n[|n| - 1], EpochColumn) == Some(Number(g'.configNonce)))
  }

  lemma LocalEpoch(w: World, a: PublicKey, c: Call)
    requires Allowed(w, a, c) && IsLocalExecution(c) && Read(w, a).ownersCommitment.OwnersHash?
    ensures EndsWithEpoch(Read(w, a), NewEvents(w, a, c), After(w, a, c))
  {
  }

  lemma RemoteEpoch(w: World, a: PublicKey, c: Call)
    requires Allowed(w, a, c) && IsRemoteExecution(c)
    ensures EndsWithEpoch(Read(w, a), NewEvents(w, a, c), After(w, a, c))
  {
  }

  lemma SetupEpochs(w: World, a: PublicKey, c: Call)
    requires Allowed(w, a, c) && (c.DoSetup? || c.DoSetupChild?) && Read(w, a).configNonce == 0
    ensures BatchEpochs(Read(w, a), NewEvents(w, a, c), After(w, a, c))
  {
    var n := NewEvents(w, a, c);
    SetupQuiet(w, a, c);
    forall j | 0 <= j < |n| && Carries(n[j], EpochColumn)
      ensures Carried(n[j], EpochColumn) == Some(Number(Started(n[..j + 1]))) {
      StartedNone(n[..j + 1]);
    }
    StartedNone(n);
  }

  lemma SetupQuiet(w: World, a: PublicKey, c: Call)
    requires Allowed(w, a, c) && (c.DoSetup? || c.DoSetupChild?) && Read(w, a).configNonce == 0
    ensures var n := NewEvents(w, a, c);
            && (forall j :: 0 <= j < |n| ==> !Starts(n[j]) && (n[j].Setup? <==> j == 0))
            && (forall j :: 0 <= j < |n| && Carries(n[j], EpochColumn) ==>
                  Carried(n[j], EpochColumn) == Some(Number(0)))
            && !Initialized(Read(w, a)) && Initialized(After(w, a, c)) && After(w, a, c).configNonce == 0
  {
  }

  lemma ReserveEpochs(w: World, a: PublicKey, c: Call)
    requires Allowed(w, a, c) && c.DoReserve?
    ensures BatchEpochs(Read(w, a), NewEvents(w, a, c), After(w, a, c))
  {
    ReserveQuiet(w, a, c);
    StartedNone(NewEvents(w, a, c));
  }

  lemma ReserveQuiet(w: World, a: PublicKey, c: Call)
    requires Allowed(w, a, c) && c.DoReserve?
    ensures var n := NewEvents(w, a, c);
            && (forall j :: 0 <= j < |n| ==> !Starts(n[j]) && ChangesOf(n[j]) == None && !n[j].Setup?)
            && !Initialized(Read(w, a)) && !Initialized(After(w, a, c))
               && After(w, a, c).configNonce == Read(w, a).configNonce
  {
  }

  lemma CallEpochs(w: World, a: PublicKey, c: Call)
    requires Allowed(w, a, c) && EpochsInv(Read(w, a)) && (!Initialized(Read(w, a)) ==> Read(w, a).configNonce == 0)
    requires Initialized(Read(w, a)) ==> Read(w, a).ownersCommitment.OwnersHash?
    ensures EpochsInv(After(w, a, c))
  {
    var g, n, g' := Read(w, a), NewEvents(w, a, c), After(w, a, c);
    CallEmits(w, a, c);
    if IsVote(c) { VoteEpochs(w, a, c); }
    else if IsLocalExecution(c) || IsRemoteExecution(c) {
      VotersInitialized(w, a, c);
      if IsLocalExecution(c) { LocalEpoch(w, a, c); } else { RemoteEpoch(w, a, c); }
      LastStarts(g, n, g');
    }
    else if c.DoReserve? { ReserveEpochs(w, a, c); }
    else { SetupUninitialized(w, a, c); SetupEpochs(w, a, c); }
    EpochsAppend(g, n, w.height, g');
  }

  lemma SetupUninitialized(w: World, a: PublicKey, c: Call)
    requires Allowed(w, a, c) && (c.DoSetup? || c.DoSetupChild?)
    ensures !Initialized(Read(w, a))
  {
  }

  lemma DeployEpochs(height: nat)
    ensures EpochsInv(Emit(BLANK, [Deployed], height))
  {
    var g := Emit(BLANK, [Deployed], height);
    EpochsNone(g.events);
  }

  lemma StepEpochs(w: World, act: Action, a: PublicKey)
    requires a in w.guards ==> EpochsInv(w.guards[a]) && (!Initialized(w.guards[a]) ==> w.guards[a].configNonce == 0)
    requires a in w.guards && Initialized(w.guards[a]) ==> w.guards[a].ownersCommitment.OwnersHash?
    requires a in Step(w, act).guards
    ensures EpochsInv(Step(w, act).guards[a])
  {
    if Can(w, act) && act.Invoke? && act.at == a { CallEpochs(w, a, act.call); }
    else if Can(w, act) && act.Deploy? && act.at == a { DeployEpochs(w.height); }
    else { assert a in w.guards && Step(w, act).guards[a] == w.guards[a]; }
  }

  lemma GovernanceFacts(self: PublicKey, g: Guard)
    requires GuardInv(self, g)
    ensures (!Initialized(g) ==> g.configNonce == 0) && (Initialized(g) ==> g.ownersCommitment.OwnersHash?)
    ensures LocalExecInv(self, g.events, g.nonce, g.approvals)
  {
  }

  lemma {:induction false} RunEpochs(balances: map<PublicKey, nat>, acts: seq<Action>, a: PublicKey)
    requires a in Run(Genesis(balances), acts).guards
    ensures EpochsInv(Run(Genesis(balances), acts).guards[a])
  {
    if acts != [] {
      var init := acts[..|acts| - 1];
      var w := Run(Genesis(balances), init);
      if a in w.guards {
        RunEpochs(balances, init, a);
        RunGuardInv(balances, init, a);
        GovernanceFacts(a, w.guards[a]);
      }
      StepEpochs(w, acts[|acts| - 1], a);
    }
  }

  // ---- what a column shows ----

  /** What holds of every reachable guard's events, as far as columns go. */
  lemma ColumnFacts(w: World, a: PublicKey)
    requires Reachable(w) && a in w.guards
    ensures var g := w.guards[a];
            EpochsInv(g) && LocalExecInv(a, g.events, g.nonce, g.approvals) && ConfigTracks(g)
            && HeightsInv(g.events, w.height)
  {
    var balances, acts :| w == Run(Genesis(balances), acts);
    RunEpochs(balances, acts, a);
    RunGuardInv(balances, acts, a);
    GovernanceFacts(a, w.guards[a]);
    ReachableFacts(w, a);
  }

  lemma {:induction false} CarrierChanges(c: seq<ChainEvent>, col: Column, i: nat)
    requires i < |c| && Carries(c[i].event, col)
    ensures Collect(c, ChainChanges) != []
  {
    if i < |c| - 1 { CarrierChanges(c[..|c| - 1], col, i); }
  }

  /** The row's column. */
  function Shows(c: seq<ChainEvent>, col: Column): (cell: Option<Cell>)
  {
    var latest := Latest(Indexed(c).configs);
    if latest.Some? then CellOf(latest.value.fields, col) else None
  }

  /** In whatever order transactions are delivered, the row shows what the decisive event carries. */
  lemma {:induction false} RowShowsDecisive(w: World, a: PublicKey, c: seq<ChainEvent>, at: seq<nat>,
                                            tx: nat -> Option<nat>, col: Column, i: nat)
    requires Reachable(w) && a in w.guards && DeliversAll(c, w.guards[a].events, at, tx) && InApplyOrder(c)
             && OnlySlotsRepeat(c)
    requires Decisive(c, col, i)
    ensures Shows(c, col) == Carried(c[i].event, col)
  {
    CarrierChanges(c, col, i);
    LatestRow(w, a, c, at, tx);
    LastCarriedShows(c, col);
    DecisiveIsLast(c, col, i);
  }

  /** The epoch column is right exactly when no epoch starts behind its decisive event. */
  lemma {:induction false} EpochRight(w: World, a: PublicKey, c: seq<ChainEvent>, at: seq<nat>, tx: nat -> Option<nat>,
                                      i: nat)
    requires Reachable(w) && a in w.guards && DeliversAll(c, w.guards[a].events, at, tx) && InApplyOrder(c)
             && OnlySlotsRepeat(c)
    requires Decisive(c, EpochColumn, i)
    ensures var g := w.guards[a];
            Shows(c, EpochColumn) == Some(GuardCell(g, EpochColumn)) <==> forall j ::
              at[i] < j < |g.events| ==> !Starts(g.events[j].event)
  {
    RowShowsDecisive(w, a, c, at, tx, EpochColumn, i);
    EpochCarried(w, a, at[i]);
  }

  /** An event carries the guard's epoch exactly when no epoch starts behind it. */
  lemma EpochCarried(w: World, a: PublicKey, j: nat)
    requires Reachable(w) && a in w.guards && j < |w.guards[a].events|
             && Carries(w.guards[a].events[j].event, EpochColumn)
    ensures var g := w.guards[a];
            Carried(g.events[j].event, EpochColumn) == Some(GuardCell(g, EpochColumn)) <==> forall k ::
              j < k < |g.events| ==> !Starts(g.events[k].event)
  {
    ColumnFacts(w, a);
    assert ShowsEpoch(w.guards[a].events, j);
    EpochsEqual(w.guards[a].events, j + 1);
  }

  // ---- nonces ----

  lemma LocalNonce(g: Guard, self: PublicKey, j: nat)
    requires LocalExecInv(self, g.events, g.nonce, g.approvals) && j < |g.events| && g.events[j].event.Execution?
             && LocalType(g.events[j].event.txType)
    ensures g.events[j].event.hash.nonce == |Execs(g.events[..j + 1], LocalKind)|
  {
    var es := g.events;
    assert es == es[..j + 1] + es[j + 1..] && es[..j + 1][..j] == es[..j];
    ExecsConcat(es[..j + 1], es[j + 1..], LocalKind);
    var k := |Execs(es[..j], LocalKind)|;
    assert Execs(es, LocalKind)[k] == es[j].event.hash;
  }

  lemma {:induction false} ExecsAny(es: seq<Emitted>, i: nat)
    requires i < |es| && es[i].event.Execution? && LocalType(es[i].event.txType)
    ensures Execs(es, LocalKind) != []
  {
    if i < |es| - 1 { ExecsAny(es[..|es| - 1], i); }
  }

  lemma {:induction false} ExecsNoLocal(es: seq<Emitted>)
    requires forall i :: 0 <= i < |es| ==> !(es[i].event.Execution? && LocalType(es[i].event.txType))
    ensures Execs(es, LocalKind) == []
  {
    if es != [] { ExecsNoLocal(es[..|es| - 1]); }
  }

  predicate ExecutesLocal(e: Event) { e.Execution? && LocalType(e.txType) }

  lemma ExecsEqual(es: seq<Emitted>, n: nat)
    requires n <= |es|
    ensures |Execs(es[..n], LocalKind)| == |Execs(es, LocalKind)| <==> forall j ::
              n <= j < |es| ==> !ExecutesLocal(es[j].event)
  {
    var late := es[n..];
    assert es == es[..n] + late;
    ExecsConcat(es[..n], late, LocalKind);
    if forall j :: n <= j < |es| ==> !ExecutesLocal(es[j].event) { ExecsNoLocal(late); }
    else {
      var j :| n <= j < |es| && ExecutesLocal(es[j].event);
      ExecsAny(late, j - n);
    }
  }

  /** A nonce in an event counts the LOCAL executions up to it. */
  lemma NonceCarried(g: Guard, self: PublicKey, j: nat)
    requires LocalExecInv(self, g.events, g.nonce, g.approvals) && EpochsInv(g) && j < |g.events|
             && Carries(g.events[j].event, NonceColumn)
    ensures Carried(g.events[j].event, NonceColumn) == Some(Number(|Execs(g.events[..j + 1], LocalKind)|))
  {
    if g.events[j].event.Execution? {
      LocalNonce(g, self, j);
    } else {
      assert g.events[j].event.Setup?;
      ExecsNoLocal(g.events[..j + 1]);
    }
  }

  /** The nonce column is right exactly when no LOCAL execution follows its decisive event. */
  lemma {:induction false} NonceRight(w: World, a: PublicKey, c: seq<ChainEvent>, at: seq<nat>, tx: nat -> Option<nat>,
                                      i: nat)
    requires Reachable(w) && a in w.guards && DeliversAll(c, w.guards[a].events, at, tx) && InApplyOrder(c)
             && OnlySlotsRepeat(c)
    requires Decisive(c, NonceColumn, i)
    ensures var g := w.guards[a];
            Shows(c, NonceColumn) == Some(GuardCell(g, NonceColumn)) <==> forall j ::
              at[i] < j < |g.events| ==> !ExecutesLocal(g.events[j].event)
  {
    RowShowsDecisive(w, a, c, at, tx, NonceColumn, i);
    LatestNonce(w, a, at[i]);
  }

  /** An event carries the guard's nonce exactly when no LOCAL execution follows it. */
  lemma LatestNonce(w: World, a: PublicKey, j: nat)
    requires Reachable(w) && a in w.guards && j < |w.guards[a].events|
             && Carries(w.guards[a].events[j].event, NonceColumn)
    ensures var g := w.guards[a];
            Carried(g.events[j].event, NonceColumn) == Some(GuardCell(g, NonceColumn)) <==> forall k ::
              j < k < |g.events| ==> !ExecutesLocal(g.events[k].event)
  {
    ColumnFacts(w, a);
    NonceCarried(w.guards[a], a, j);
    ExecsEqual(w.guards[a].events, j + 1);
  }

  // ---- transactions delivered in chain order ----

  /** The events in the order they were emitted. */
  predicate AsEmitted(d: seq<ChainEvent>, es: seq<Emitted>) {
    |d| == |es| && forall i :: 0 <= i < |d| ==> d[i].event == es[i].event && d[i].height == es[i].height
  }

  lemma {:induction false} EmittedCollect(d: seq<ChainEvent>, es: seq<Emitted>)
    requires AsEmitted(d, es)
    ensures Collect(d, ChainChanges) == Collect(es, EmittedChanges)
  {
    if d != [] { EmittedCollect(d[..|d| - 1], es[..|es| - 1]); }
  }

  function PositionIn(d: seq<ChainEvent>, e: ChainEvent): (i: nat)
    ensures e in d ==> i < |d| && d[i] == e
  {
    if d == [] || d[0] == e then 0 else 1 + PositionIn(d[1..], e)
  }

  /** A sorted delivery of everything is a delivery of everything. */
  lemma SortedDelivers(d: seq<ChainEvent>, es: seq<Emitted>) returns (at: seq<nat>, tx: nat -> Option<nat>)
    requires AsEmitted(d, es)
    ensures DeliversAll(OrderForApply(d), es, at, tx)
  {
    var c := OrderForApply(d);
    OrderKeepsElements(d);
    at := seq(|c|, i requires 0 <= i < |c| => PositionIn(d, c[i]));
    tx := (p: nat) => if p < |d| then d[p].txHash else None;
    forall i | 0 <= i < |c|
      ensures at[i] < |es| && c[i].event == es[at[i]].event && c[i].height == es[at[i]].height
              && c[i].txHash == tx(at[i]) {
      assert c[i] in c;
    }
    forall j | 0 <= j < |es| ensures Shown(c, es[j]) {
      assert d[j] in c;
    }
  }

  lemma SortedRepeats(d: seq<ChainEvent>)
    requires OnlySlotsRepeat(d)
    ensures OnlySlotsRepeat(OrderForApply(d))
  {
    var c := OrderForApply(d);
    SortBySorts(d, ApplyRank);
    PermutationSame(c, d);
    forall i, j | 0 <= i < j < |c| && FingerprintOf(c[i]) == FingerprintOf(c[j]) ensures c[j].event.ReceiverSlot? {
      RepeatsInBoth(c, d, i, j);
    }
  }

  lemma RepeatsInBoth(c: seq<ChainEvent>, d: seq<ChainEvent>, i: nat, j: nat)
    requires OnlySlotsRepeat(d) && multiset(c) == multiset(d) && SameElements(c, d) && i < j < |c|
             && FingerprintOf(c[i]) == FingerprintOf(c[j])
    ensures c[j].event.ReceiverSlot?
  {
    assert c[i] in d && c[j] in d;
    var p :| 0 <= p < |d| && d[p] == c[i];
    var q :| 0 <= q < |d| && d[q] == c[j];
    if p == q {
      if !c[j].event.ReceiverSlot? {
        OnceInList(d, p);
        OnceCountedDistinct(c, i, j);
      }
    }
  }

  lemma {:induction false} OnceInList(d: seq<ChainEvent>, p: nat)
    requires OnlySlotsRepeat(d) && p < |d| && !d[p].event.ReceiverSlot?
    ensures multiset(d)[d[p]] <= 1
  {
    var before, after := d[..p], d[p + 1..];
    assert d == before + [d[p]] + after;
    assert d[p] !in before && d[p] !in after;
  }

  /** Of every column but the epoch, the carriers behind setup have one rank. */
  lemma OneRank(e: Event, f: Event, col: Column)
    requires Carries(e, col) && Carries(f, col) && col != EpochColumn && !e.Setup? && !f.Setup?
    ensures TypeRank(e) == TypeRank(f) > 1
  {
  }

  lemma ColumnAscends(g: Guard, d: seq<ChainEvent>, col: Column, now: nat, j: nat, k: nat)
    requires EpochsInv(g) && HeightsInv(g.events, now) && AsEmitted(d, g.events) && col != EpochColumn
    requires j < k < |d| && Carries(d[j].event, col) && Carries(d[k].event, col)
    ensures ApplyRank(d[j]) <= ApplyRank(d[k])
  {
    assert g.events[j].height <= g.events[k].height;
    assert !d[k].event.Setup?;
    if !d[j].event.Setup? { OneRank(d[j].event, d[k].event, col); }
  }

  lemma {:induction false} LastCarrier(c: seq<ChainEvent>, col: Column) returns (i: nat)
    requires LastCarried(c, col).Some?
    ensures i < |c| && Carries(c[i].event, col)
  {
    if Carries(c[|c| - 1].event, col) { i := |c| - 1; } else { i := LastCarrier(c[..|c| - 1], col); }
  }

  /** The guard's configuration is the last write of each column, in emission order. */
  lemma EmittedShows(w: World, a: PublicKey, d: seq<ChainEvent>, col: Column)
    requires Reachable(w) && a in w.guards && Initialized(w.guards[a]) && AsEmitted(d, w.guards[a].events)
    ensures LastCarried(d, col) == Some(GuardCell(w.guards[a], col))
  {
    ColumnFacts(w, a);
    EmittedCollect(d, w.guards[a].events);
    LastCarriedShows(d, col);
    FieldsByColumn(FieldsFrom(w.guards[a].events), w.guards[a]);
  }

  /** With transactions delivered in chain order, the row shows what the decisive emitted event carries. */
  lemma {:induction false} ChainOrderShows(w: World, a: PublicKey, d: seq<ChainEvent>, col: Column, i: nat)
    requires Reachable(w) && a in w.guards && AsEmitted(d, w.guards[a].events) && OnlySlotsRepeat(d)
             && Decisive(d, col, i)
    ensures Shows(OrderForApply(d), col) == Carried(d[i].event, col)
  {
    var c := OrderForApply(d);
    var at, tx := SortedDelivers(d, w.guards[a].events);
    SortedRepeats(d);
    SortedInOrder(d);
    SortedWrites(d, col, i);
    var some := LastCarrier(c, col);
    CarrierChanges(c, col, some);
    LatestRow(w, a, c, at, tx);
    LastCarriedShows(c, col);
  }

  /** Threshold, owners, owner count, nonce and multisig flag are then always right. */
  lemma {:induction false} ColumnsRight(w: World, a: PublicKey, d: seq<ChainEvent>, col: Column)
    requires Reachable(w) && a in w.guards && Initialized(w.guards[a]) && AsEmitted(d, w.guards[a].events)
             && OnlySlotsRepeat(d) && col != EpochColumn
    ensures Shows(OrderForApply(d), col) == Some(GuardCell(w.guards[a], col))
  {
    EmittedShows(w, a, d, col);
    var some := LastCarrier(d, col);
    var i := DecisiveExists(d, col, some);
    ChainOrderShows(w, a, d, col, i);
    ColumnFacts(w, a);
    forall j, k | 0 <= j < k < |d| && Carries(d[j].event, col) && Carries(d[k].event, col)
      ensures ApplyRank(d[j]) <= ApplyRank(d[k]) {
      ColumnAscends(w.guards[a], d, col, w.height, j, k);
    }
    AscendingDecisive(d, col, i);
  }

  /**
   The latest row has the guard's threshold, owners, owner count, nonce, epoch and multisig flag exactly when, in the
   last block with epoch-carrying events, no epoch starts behind the last of the highest-ranked ones.
   */
  lemma {:induction false} LatestRowTracksGuard(w: World, a: PublicKey, d: seq<ChainEvent>, i: nat)
    requires Reachable(w) && a in w.guards && Initialized(w.guards[a]) && AsEmitted(d, w.guards[a].events)
             && OnlySlotsRepeat(d)
    requires Decisive(d, EpochColumn, i)
    ensures var latest := Latest(Indexed(OrderForApply(d)).configs);
            latest.Some? && (FieldsOf(latest.value.fields, w.guards[a]) <==> forall j ::
                             i < j < |d| ==> !Starts(d[j].event))
  {
    var g := w.guards[a];
    ChainOrderShows(w, a, d, EpochColumn, i);
    EpochCarried(w, a, i);
    assert (forall j :: i < j < |d| ==> !Starts(d[j].event))
      <==> (forall k :: i < k < |g.events| ==> !Starts(g.events[k].event)) by {
      assert forall j :: 0 <= j < |d| ==> d[j].event == g.events[j].event;
    }
    var fields := Latest(Indexed(OrderForApply(d)).configs).value.fields;
    forall col | col != EpochColumn ensures CellOf(fields, col) == Some(GuardCell(g, col)) {
      ColumnsRight(w, a, d, col);
    }
    FieldsByColumn(fields, g);
  }
}
