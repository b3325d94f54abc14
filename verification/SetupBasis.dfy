/**
 The increment from a basis taken before setup, when setup rows are ignored: which owner changes make up for them.
 A replay on no owners lacks the setup owners that no change removed, and is otherwise in sorted order.
 */
module SetupBasis {
  import opened Primitives
  import opened Sequences
  import opened ListCommitment
  import opened Guards
  import opened GuardInvariant
  import opened Ledger
  import opened LedgerInvariant
  import opened Executions
  import opened Storage
  import opened EventRebuild
  import opened EventSourcing
  import opened OwnerReplay
  import opened EventCompleteness
  import opened StoreCheckpoint
  import opened LoadSequence

  // ---- changes as the contract emits them ----

  /** A change that was executed on `s` and gave `t`. */
  predicate Executes(c: Change, s: seq<PublicKey>, t: seq<PublicKey>) {
    && c.owner.Some? && c.newOwners == Some(OwnersHash(t))
    && (if c.added then c.owner.value !in s && IsInsertion(s, c.owner.value, t) else t == Without(s, c.owner.value))
  }

  /** Each change was executed on what the setup list and the changes before it give. */
  ghost predicate Linked(setup: seq<PublicKey>, cs: seq<Change>, order: Base58) {
    forall i :: 0 <= i < |cs| ==>
      Executes(cs[i], ReplayAll(setup, cs[..i], order), ReplayAll(setup, cs[..i + 1], order))
  }

  predicate Removes(c: Change, k: PublicKey) { !c.added && c.owner == Some(k) }

  /** Every setup owner has been removed by one of the changes. */
  predicate SetupCleared(setup: seq<PublicKey>, cs: seq<Change>) {
    forall k :: k in setup ==> exists i :: 0 <= i < |cs| && Removes(cs[i], k)
  }

  /** The change reports an owner list in base58 order. */
  predicate ReportsSorted(c: Change, order: Base58) {
    c.newOwners.Some? && c.newOwners.value.OwnersHash? && SortedList(c.newOwners.value.owners, order)
  }

  /** Some change left no setup owner behind and its list in base58 order. */
  predicate Restarts(setup: seq<PublicKey>, cs: seq<Change>, order: Base58) {
    exists j :: 0 <= j < |cs| && SetupCleared(setup, cs[..j + 1]) && ReportsSorted(cs[j], order)
  }

  // ---- one change ----

  ghost predicate Injective(order: Base58) { forall p, q :: order(p) == order(q) ==> p == q }

  lemma {:induction false} InsertMember(s: seq<PublicKey>, owner: PublicKey, i: nat, k: PublicKey)
    requires i <= |s|
    ensures k in InsertAt(s, owner, i) <==> k in s || k == owner
  {
    assert s == s[..i] + s[i..];
  }

  lemma {:induction false} WithoutMember(s: seq<PublicKey>, owner: PublicKey, k: PublicKey)
    ensures k in Without(s, owner) <==> k in s && k != owner
  {
    if s != [] {
      assert s == s[..|s| - 1] + [s[|s| - 1]];
      WithoutMember(s[..|s| - 1], owner, k);
    }
  }

  lemma {:induction false} WithoutSorted(s: seq<PublicKey>, owner: PublicKey, order: Base58)
    requires SortedList(s, order)
    ensures SortedList(Without(s, owner), order)
  {
    if s != [] {
      var init, last := s[..|s| - 1], s[|s| - 1];
      WithoutSorted(init, owner, order);
      var r := Without(init, owner);
      forall i | 0 <= i < |r| ensures order(r[i]) < order(last) {
        assert r[i] in init;
        var j :| 0 <= j < |init| && init[j] == r[i];
        assert order(s[j]) < order(s[|s| - 1]);
      }
    }
  }

  lemma {:induction false} InsertedSorted(s: seq<PublicKey>, owner: PublicKey, order: Base58)
    requires SortedList(s, order) && owner !in s && Injective(order)
    ensures SortedList(SortedInsert(s, owner, order), order)
  {
    var at := SortedIndex(s, owner, order);
    forall j | 0 <= j < at ensures order(s[j]) < order(owner) { assert s[j] in s; }
    SortedInsertKeepsSorted(s, owner, order, at);
  }

  lemma {:induction false} OnlyThere(s: seq<PublicKey>, owner: PublicKey, i: nat)
    requires i <= |s| && owner !in s
    ensures var t := InsertAt(s, owner, i); forall p :: 0 <= p < |t| ==> (t[p] == owner <==> p == i)
  {
    var t := InsertAt(s, owner, i);
    forall p | 0 <= p < |t| && p != i ensures t[p] in s { assert t[p] == if p < i then s[p] else s[p - 1]; }
  }

  /** A list is determined by the result of inserting a new key into it. */
  lemma {:induction false} InsertionDetermines(s: seq<PublicKey>, m: seq<PublicKey>, owner: PublicKey,
                                               t: seq<PublicKey>)
    requires IsInsertion(s, owner, t) && IsInsertion(m, owner, t) && owner !in s && owner !in m
    ensures s == m
  {
    var i :| 0 <= i <= |s| && t == InsertAt(s, owner, i);
    var j :| 0 <= j <= |m| && t == InsertAt(m, owner, j);
    OnlyThere(s, owner, i);
    OnlyThere(m, owner, j);
    assert t[i] == owner && i == j;
    assert s == t[..i] + t[i + 1..] && m == t[..j] + t[j + 1..];
  }

  /** What a replay that lacks some owners holds. */
  ghost predicate LacksExactly(s: seq<PublicKey>, m: seq<PublicKey>, kept: set<PublicKey>) {
    (forall k :: k in m <==> k in s && k !in kept) && forall k :: k in kept ==> k in s
  }

  function KeptBy(kept: set<PublicKey>, c: Change): set<PublicKey> {
    if !c.added && c.owner.Some? then kept - {c.owner.value} else kept
  }

  /** One change: the lacking owners shrink by a removed one, and a list that differs stays sorted. */
  lemma {:induction false} ChangeLacks(s: seq<PublicKey>, m: seq<PublicKey>, kept: set<PublicKey>, c: Change,
                                       t: seq<PublicKey>, order: Base58)
    requires Executes(c, s, t) && LacksExactly(s, m, kept) && (m == s || SortedList(m, order)) && Injective(order)
    ensures var n := Replayed(m, c, order);
            LacksExactly(t, n, KeptBy(kept, c)) && (m == s ==> n == t) && (m != s ==> SortedList(n, order))
  {
    var owner := c.owner.value;
    if !c.added {
      forall k ensures k in Without(m, owner) <==> k in m && k != owner { WithoutMember(m, owner, k); }
      forall k ensures k in t <==> k in s && k != owner { WithoutMember(s, owner, k); }
      if m != s { WithoutSorted(m, owner, order); }
    } else {
      var i :| 0 <= i <= |s| && t == InsertAt(s, owner, i);
      forall k ensures k in t <==> k in s || k == owner { InsertMember(s, owner, i, k); }
      AddLacks(s, m, owner, c, t, order);
    }
  }

  lemma {:induction false} AddLacks(s: seq<PublicKey>, m: seq<PublicKey>, owner: PublicKey, c: Change,
                                    t: seq<PublicKey>, order: Base58)
    requires Executes(c, s, t) && c.added && c.owner == Some(owner) && owner !in m && (m == s || SortedList(m, order))
             && Injective(order)
    ensures var n := Replayed(m, c, order);
            (m == s ==> n == t) && (m != s ==> SortedList(n, order)) && forall k :: k in n <==> k in m || k == owner
  {
    if IsInsertion(m, owner, t) { InsertionDetermines(s, m, owner, t); }
    var at: nat;
    if m == s {
      at :| 0 <= at <= |m| && t == InsertAt(m, owner, at);
    } else {
      at := SortedIndex(m, owner, order);
      InsertedSorted(m, owner, order);
    }
    forall k ensures k in InsertAt(m, owner, at) <==> k in m || k == owner { InsertMember(m, owner, at, k); }
  }

  // ---- all changes ----

  function KeysOf(s: seq<PublicKey>): set<PublicKey> { set k | k in s }

  function KeptByAll(kept: set<PublicKey>, cs: seq<Change>): set<PublicKey> {
    if cs == [] then kept else KeptBy(KeptByAll(kept, cs[..|cs| - 1]), cs[|cs| - 1])
  }

  lemma {:induction false} KeptMember(kept: set<PublicKey>, cs: seq<Change>, k: PublicKey)
    ensures k in KeptByAll(kept, cs) <==> k in kept && !exists i :: 0 <= i < |cs| && Removes(cs[i], k)
  {
    if cs != [] {
      var init := cs[..|cs| - 1];
      KeptMember(kept, init, k);
      if i :| 0 <= i < |cs| && Removes(cs[i], k) { assert i < |init| ==> Removes(init[i], k); }
      if i :| 0 <= i < |init| && Removes(init[i], k) { assert Removes(cs[i], k); }
      if Removes(cs[|cs| - 1], k) { assert Removes(cs[|cs| - 1], k); }
    }
  }

  lemma ClearedKept(setup: seq<PublicKey>, cs: seq<Change>)
    ensures SetupCleared(setup, cs) <==> KeptByAll(KeysOf(setup), cs) == {}
  {
    forall k ensures k in KeptByAll(KeysOf(setup), cs) <==> k in setup && !exists i ::
      0 <= i < |cs| && Removes(cs[i], k) {
      KeptMember(KeysOf(setup), cs, k);
    }
    if k: PublicKey :| k in KeptByAll(KeysOf(setup), cs) { assert k in setup; }
  }

  lemma {:induction false} LinkedBefore(setup: seq<PublicKey>, cs: seq<Change>, order: Base58)
    requires cs != [] && Linked(setup, cs, order)
    ensures Linked(setup, cs[..|cs| - 1], order)
    ensures Executes(cs[|cs| - 1], ReplayAll(setup, cs[..|cs| - 1], order), ReplayAll(setup, cs, order))
  {
    var init := cs[..|cs| - 1];
    assert cs[..|cs|] == cs;
    forall i | 0 <= i < |init|
      ensures Executes(init[i], ReplayAll(setup, init[..i], order), ReplayAll(setup, init[..i + 1], order)) {
      assert init[..i] == cs[..i] && init[..i + 1] == cs[..i + 1] && init[i] == cs[i];
    }
    assert cs[..|cs| - 1 + 1] == cs;
  }

  /** What the replay on no owners holds: all but the setup owners never removed, in sorted order until it agrees. */
  lemma {:induction false} BareLacks(setup: seq<PublicKey>, cs: seq<Change>, order: Base58)
    requires setup != [] && Linked(setup, cs, order) && Injective(order)
    ensures var s, m := ReplayAll(setup, cs, order), ReplayAll([], cs, order);
            && LacksExactly(s, m, KeptByAll(KeysOf(setup), cs))
            && (m == s || SortedList(m, order))
            && (m == s <==> Restarts(setup, cs, order))
  {
    if cs == [] {
      assert setup[0] in setup;
    } else {
      var init, c := cs[..|cs| - 1], cs[|cs| - 1];
      LinkedBefore(setup, cs, order);
      BareLacks(setup, init, order);
      var s, m := ReplayAll(setup, init, order), ReplayAll([], init, order);
      ChangeLacks(s, m, KeptByAll(KeysOf(setup), init), c, ReplayAll(setup, cs, order), order);
      RestartsNext(setup, cs, order);
      ClearedKept(setup, cs);
      if m != s {
        AgreeNow(ReplayAll(setup, cs, order), ReplayAll([], cs, order), KeptByAll(KeysOf(setup), cs), order);
      }
    }
  }

  lemma {:induction false} RestartsNext(setup: seq<PublicKey>, cs: seq<Change>, order: Base58)
    requires cs != []
    ensures Restarts(setup, cs, order) <==>
            Restarts(setup, cs[..|cs| - 1], order) || (SetupCleared(setup, cs) && ReportsSorted(cs[|cs| - 1], order))
  {
    var init := cs[..|cs| - 1];
    assert cs[..|cs| - 1 + 1] == cs;
    if j :| 0 <= j < |cs| && SetupCleared(setup, cs[..j + 1]) && ReportsSorted(cs[j], order) {
      assert j < |init| ==> init[..j + 1] == cs[..j + 1] && init[j] == cs[j];
    }
    if j :| 0 <= j < |init| && SetupCleared(setup, init[..j + 1]) && ReportsSorted(init[j], order) {
      assert init[..j + 1] == cs[..j + 1] && init[j] == cs[j];
    }
  }

  /** A sorted list equals the one it is compared with exactly when nothing is lacking and that one is sorted too. */
  lemma {:induction false} AgreeNow(s: seq<PublicKey>, m: seq<PublicKey>, kept: set<PublicKey>, order: Base58)
    requires LacksExactly(s, m, kept) && SortedList(m, order)
    ensures m == s <==> kept == {} && SortedList(s, order)
  {
    if kept == {} && SortedList(s, order) {
      assert SameElements(m, s);
      var rank: PublicKey -> int := k => order(k);
      assert StrictlyAscending(m, rank) && StrictlyAscending(s, rank);
      StrictOrderUnique(m, s, rank);
    }
    if k: PublicKey :| k in kept { assert k in s && k !in m; }
  }

  // ---- every run ----

  ghost predicate ChangesInv(g: Guard, order: Base58) {
    Linked(OwnersOfSlots(Slots(g)), Changes(g), order) && (Initialized(g) ==> Slots(g) != [])
  }

  lemma {:induction false} LinkedNext(setup: seq<PublicKey>, cs: seq<Change>, c: Change, order: Base58)
    requires Linked(setup, cs, order) && Executes(c, ReplayAll(setup, cs, order), ReplayAll(setup, cs + [c], order))
    ensures Linked(setup, cs + [c], order)
  {
    var all := cs + [c];
    forall i | 0 <= i < |all|
      ensures Executes(all[i], ReplayAll(setup, all[..i], order), ReplayAll(setup, all[..i + 1], order)) {
      if i < |cs| {
        assert all[..i] == cs[..i] && all[..i + 1] == cs[..i + 1];
      } else {
        assert all[..i] == cs && all[..i + 1] == all;
      }
    }
  }

  lemma ListedHasX(s: seq<PublicKey>, pk: PublicKey)
    ensures pk in s ==> HasX(s, pk.x)
  {
  }

  /** The contract's own change is what the emitted one says. */
  lemma {:induction false} ExecutedChange(g: Guard, p: Proposal, self: PublicKey, insertAfter: Option<PublicKey>,
                                          slot: nat)
    requires CanChangeOwner(self, g, p, insertAfter, slot) && XDistinct(OwnerList(g)) && Target(p) != EMPTY_KEY
    ensures var t := ChangedOwners(g, p, insertAfter);
            Executes(Change(Known(g.configNonce + 1), Decoded(Target(p)), p.txType == ADD_OWNER, Some(OwnersHash(t))),
                     OwnerList(g), t)
  {
    if p.txType == ADD_OWNER {
      AddReplayed(OwnerList(g), Target(p), insertAfter);
      ListedHasX(OwnerList(g), Target(p));
    }
  }

  lemma {:induction false} OwnerChangeLinked(w: World, a: PublicKey, c: Call, order: Base58)
    requires Allowed(w, a, c) && c.DoOwnerChange? && ReplayInv(Read(w, a), order) && ChangesInv(Read(w, a), order)
    requires XDistinct(OwnerList(Read(w, a))) && Target(c.p) != EMPTY_KEY
    ensures ChangesInv(After(w, a, c), order)
  {
    var g, g', n := Read(w, a), After(w, a, c), NewEvents(w, a, c);
    CallEmits(w, a, c);
    assert n == [n[0], n[1]];
    ChangeAppended(g, n[0], n[1], w.height, g');
    ExecutedChange(g, c.p, a, c.insertAfter, w.slot);
    ReplayedAsExecuted(g, c.p, a, c.insertAfter, w.slot, order);
    var cs, e := Changes(g), ChangeOfEvent(n[1]);
    assert (cs + [e])[..|cs|] == cs;
    LinkedNext(OwnersOfSlots(Slots(g)), cs, e, order);
  }

  lemma {:induction false} SetupLinked(w: World, a: PublicKey, c: Call, order: Base58)
    requires Allowed(w, a, c) && (c.DoSetup? || c.DoSetupChild?) && ReplayInv(Read(w, a), order)
    ensures ChangesInv(After(w, a, c), order)
  {
    var g, g', n := Read(w, a), After(w, a, c), NewEvents(w, a, c);
    CallEmits(w, a, c);
    var tail := n[1 + |c.owners|..];
    assert n == [n[0]] + SetupOwnerEvents(c.owners, c.numOwners) + tail;
    CollectAppend(g, n, w.height, g', SlotOf);
    CollectAppend(g, n, w.height, g', ChangeOf);
    SetupBatch(n[0], c.owners, c.numOwners, tail, w.height);
    UnchangedBatch(n, w.height);
    assert Changes(g') == [] && |Slots(g')| == c.numOwners;
  }

  lemma {:induction false} OtherLinked(w: World, a: PublicKey, c: Call, order: Base58)
    requires Allowed(w, a, c) && !c.DoSetup? && !c.DoSetupChild? && !c.DoOwnerChange? && ChangesInv(Read(w, a), order)
    ensures ChangesInv(After(w, a, c), order)
  {
    var g, g', n := Read(w, a), After(w, a, c), NewEvents(w, a, c);
    CallEmits(w, a, c);
    OtherCallEvents(w, a, c);
    CollectAppend(g, n, w.height, g', SlotOf);
    CollectAppend(g, n, w.height, g', ChangeOf);
    SilentBatch(n, w.height);
    assert Slots(g') == Slots(g) && Changes(g') == Changes(g);
    SetupOnly(w, a, c);
  }

  lemma SetupOnly(w: World, a: PublicKey, c: Call)
    requires Allowed(w, a, c) && !c.DoSetup? && !c.DoSetupChild?
    ensures Initialized(After(w, a, c)) ==> Initialized(Read(w, a))
  {
  }

  lemma CallLinked(w: World, a: PublicKey, c: Call, order: Base58)
    requires Allowed(w, a, c) && GuardInv(a, Read(w, a)) && ReplayInv(Read(w, a), order)
             && ChangesInv(Read(w, a), order)
    ensures ChangesInv(After(w, a, c), order)
  {
    if c.DoOwnerChange? {
      CallRaises(w, a, c);
      OwnersOfInv(a, Read(w, a));
      OwnerChangeLinked(w, a, c, order);
    } else if c.DoSetup? || c.DoSetupChild? {
      SetupLinked(w, a, c, order);
    } else {
      OtherLinked(w, a, c, order);
    }
  }

  lemma DeployLinked(height: nat, order: Base58)
    ensures ChangesInv(Emit(BLANK, [Deployed], height), order)
  {
    var g := Emit(BLANK, [Deployed], height);
    assert RowsOf(g.events) == Batch([Deployed], height);
    SilentBatch([Deployed], height);
  }

  lemma StepLinked(w: World, act: Action, a: PublicKey, order: Base58)
    requires a in w.guards ==>
               GuardInv(a, w.guards[a]) && ReplayInv(w.guards[a], order) && ChangesInv(w.guards[a], order)
    requires a in Step(w, act).guards
    ensures ChangesInv(Step(w, act).guards[a], order)
  {
    if Can(w, act) && act.Deploy? && act.at == a {
      DeployLinked(w.height, order);
    } else if Can(w, act) && act.Invoke? && act.at == a {
      CallLinked(w, a, act.call, order);
    }
  }

  lemma {:induction false} RunLinked(balances: map<PublicKey, nat>, acts: seq<Action>, a: PublicKey, order: Base58)
    requires a in Run(Genesis(balances), acts).guards
    ensures ChangesInv(Run(Genesis(balances), acts).guards[a], order)
  {
    if acts != [] {
      var init := acts[..|acts| - 1];
      var w := Run(Genesis(balances), init);
      RunKeeps(Genesis(balances), init);
      if a in w.guards {
        RunLinked(balances, init, a, order);
        RunEvents(balances, init, a, order);
        GuardInvOf(w, a);
      }
      StepLinked(w, acts[|acts| - 1], a, order);
    }
  }

  lemma ReachableLinked(w: World, a: PublicKey, order: Base58)
    requires Reachable(w) && a in w.guards
    ensures ChangesInv(w.guards[a], order)
  {
    var balances, acts :| w == Run(Genesis(balances), acts);
    RunLinked(balances, acts, a, order);
  }

  // ---- the increment ----

  /**
   From the contents of a guard before its setup, which only a snapshot from elsewhere can hold, the increment
   succeeds exactly when some owner change left no setup owner behind and reported an owner list in base58 order.
   */
  lemma {:induction false} BasisBeforeSetup(w: World, acts: seq<Action>, a: PublicKey, rows: seq<Row>, from: int,
                                            order: Base58)
    requires Reachable(w) && a in w.guards && !Initialized(w.guards[a]) && Injective(order)
    requires var g, g' := w.guards[a], Read(Run(w, acts), a);
             Initialized(g') && SameElements(rows, RowsOf(EmittedSince(g, g'))) && FromBlock(rows, from)
    ensures var g, g' := w.guards[a], Read(Run(w, acts), a);
            Succeeds(Some(ContentsOf(g)), from, Some(rows), Some(ChainStateOf(g')), order)
            <==> Restarts(OwnersOfSlots(Slots(g')), Changes(g'), order)
  {
    var g, g' := w.guards[a], Read(Run(w, acts), a);
    GuardEvolves(w, acts, a);
    ReachableRun(w, acts);
    ReachableEvents(w, a, order);
    ReachableEvents(Run(w, acts), a, order);
    InitializedRoots(Run(w, acts), a);
    BareContents(g, g', rows, order);
    BareMatch(g, g', rows, from, order);
    ReachableLinked(Run(w, acts), a, order);
    BareLacks(OwnersOfSlots(Slots(g')), Changes(g'), order);
  }

  lemma BareMatch(g: Guard, g': Guard, rows: seq<Row>, from: int, order: Base58)
    requires FromBlock(rows, from) && ChainStateOf(g') == RootsOf(ContentsOf(g'))
    requires RebuiltContents(rows, Some(ContentsOf(g)), order)
             == Contents(ReplayAll([], Changes(g'), order), g'.approvals, g'.voteNullifiers)
    ensures Succeeds(Some(ContentsOf(g)), from, Some(rows), Some(ChainStateOf(g')), order)
            <==> ReplayAll([], Changes(g'), order) == OwnerList(g')
  {
  }

  lemma {:induction false} BareContents(g: Guard, g': Guard, rows: seq<Row>, order: Base58)
    requires ReplayInv(g, order) && MapsInv(g) && !Initialized(g) && ReplayInv(g', order) && MapsInv(g')
             && g.events <= g'.events
    requires SameElements(rows, RowsOf(EmittedSince(g, g')))
    ensures RebuiltContents(rows, Some(ContentsOf(g)), order)
            == Contents(ReplayAll([], Changes(g'), order), g'.approvals, g'.voteNullifiers)
  {
    LateChangesAscend(g, g', order);
    BareReplay(g, g', rows, order);
    MapAdvanced(g.events, g'.events, rows, ApprovalWrite);
    MapAdvanced(g.events, g'.events, rows, VoteWrite);
  }

  lemma {:induction false} BareReplay(g: Guard, g': Guard, rows: seq<Row>, order: Base58)
    requires ReplayInv(g, order) && !Initialized(g) && g.events <= g'.events
             && SameElements(rows, RowsOf(EmittedSince(g, g')))
    requires StrictlyAscending(Collect(RowsOf(EmittedSince(g, g')), ChangeOf), NonceOf)
    ensures RebuiltOwners(rows, Some(OwnerList(g)), order) == ReplayAll([], Changes(g'), order)
  {
    var late := EmittedSince(g, g');
    assert g'.events == g.events + late;
    RowsConcat(g.events, late);
    CollectConcat(RowsOf(g.events), RowsOf(late), ChangeOf);
    ChangesRestored(rows, RowsOf(late));
    assert Changes(g') == Collect(RowsOf(late), ChangeOf);
  }
}
