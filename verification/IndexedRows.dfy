/**
 What single rows of the index say of the contract: the latest membership row of a key tells whether it is an owner,
 and the rows of a proposal, a vote and an execution carry what the contract emitted with them.
 */
module IndexedRows {
  import opened Primitives
  import opened Sequences
  import opened ListCommitment
  import opened Guards
  import opened GuardInvariant
  import opened Ledger
  import opened LedgerInvariant
  import opened EventSourcing
  import opened EventRoots
  import opened OwnerReplay
  import opened EventCompleteness
  import opened EventOrder
  import opened IndexTables
  import opened Reorg
  import opened HonestEvents
  import opened IndexMeaning
  import opened ConfigColumns

  // ---- picking events out of a chain ----

  function Only(p: Event -> bool): ChainEvent -> Option<ChainEvent> {
    (e: ChainEvent) => if p(e.event) then Some(e) else None
  }

  function Picked(c: seq<ChainEvent>, p: Event -> bool): seq<ChainEvent> { Collect(c, Only(p)) }

  lemma {:induction false} PickedSnoc(c: seq<ChainEvent>, e: ChainEvent, p: Event -> bool)
    ensures Picked(c + [e], p) == if p(e.event) then Picked(c, p) + [e] else Picked(c, p)
  {
    assert (c + [e])[..|c|] == c;
  }

  lemma {:induction false} PickedMember(c: seq<ChainEvent>, e: ChainEvent, p: Event -> bool)
    ensures e in Picked(c, p) <==> e in c && p(e.event)
  {
    CollectMember(c, Only(p), e);
  }

  lemma {:induction false} InsertPicked(s: seq<ChainEvent>, x: ChainEvent, p: Event -> bool)
    requires Ascending(s, ApplyRank)
    ensures Picked(InsertBy(s, x, ApplyRank), p)
            == if p(x.event) then InsertBy(Picked(s, p), x, ApplyRank) else Picked(s, p)
  {
    if s == [] || ApplyRank(s[|s| - 1]) <= ApplyRank(x) {
      PickedSnoc(s, x, p);
      var kept := Picked(s, p);
      if kept != [] {
        PickedMember(s, kept[|kept| - 1], p);
        var i :| 0 <= i < |s| && s[i] == kept[|kept| - 1];
      }
    } else {
      var init, last := s[..|s| - 1], s[|s| - 1];
      InsertPicked(init, x, p);
      PickedSnoc(InsertBy(init, x, ApplyRank), last, p);
      var kept := Picked(init, p);
      assert (kept + [last])[..|kept|] == kept;
    }
  }

  lemma {:induction false} SortPicked(s: seq<ChainEvent>, p: Event -> bool)
    ensures Picked(OrderForApply(s), p) == OrderForApply(Picked(s, p))
  {
    if s != [] {
      var init, last := s[..|s| - 1], s[|s| - 1];
      SortPicked(init, p);
      SortBySorts(init, ApplyRank);
      InsertPicked(OrderForApply(init), last, p);
      var kept := Picked(init, p);
      assert (kept + [last])[..|kept|] == kept;
    }
  }

  lemma {:induction false} SortedStays(s: seq<ChainEvent>)
    requires Ascending(s, ApplyRank)
    ensures OrderForApply(s) == s
  {
    if s != [] {
      var init, last := s[..|s| - 1], s[|s| - 1];
      SortedStays(init);
      assert init != [] ==> ApplyRank(init[|init| - 1]) <= ApplyRank(last);
    }
  }

  /** The events picked are already where the indexer would put them. */
  predicate PickedAscends(c: seq<ChainEvent>, p: Event -> bool) {
    forall i, j :: 0 <= i < j < |c| && p(c[i].event) && p(c[j].event) ==> ApplyRank(c[i]) <= ApplyRank(c[j])
  }

  lemma {:induction false} PickedAscending(c: seq<ChainEvent>, p: Event -> bool)
    requires PickedAscends(c, p)
    ensures Ascending(Picked(c, p), ApplyRank)
  {
    if c != [] {
      var init, last := c[..|c| - 1], c[|c| - 1];
      PickedAscending(init, p);
      forall i | 0 <= i < |Picked(init, p)| ensures p(last.event) ==> ApplyRank(Picked(init, p)[i]) <= ApplyRank(last) {
        PickedMember(init, Picked(init, p)[i], p);
        var j :| 0 <= j < |init| && init[j] == Picked(init, p)[i];
        assert c[j] == init[j];
      }
    }
  }

  /** Such events keep their order when the chain is ordered. */
  lemma {:induction false} PickedStays(d: seq<ChainEvent>, p: Event -> bool)
    requires PickedAscends(d, p)
    ensures Picked(OrderForApply(d), p) == Picked(d, p)
  {
    SortPicked(d, p);
    PickedAscending(d, p);
    SortedStays(Picked(d, p));
  }

  // ---- membership ----

  /** The event makes `k` an owner or ends it. */
  predicate About(e: Event, k: PublicKey) {
    k != EMPTY_KEY && ((e.SetupOwner? && e.owner == k) || (e.OwnerChange? && e.owner == k))
  }

  function AboutKey(k: PublicKey): Event -> bool { (e: Event) => About(e, k) }

  predicate Joins(e: Event) { e.SetupOwner? || (e.OwnerChange? && e.added) }

  /** The newest row of a key: rows stand in the order of blocks and of events within them. */
  function LatestMember(rows: seq<MemberRow>, k: PublicKey): (r: Option<MemberRow>)
  {
    if rows == [] then None
    else if rows[|rows| - 1].owner == k then Some(rows[|rows| - 1])
    else LatestMember(rows[..|rows| - 1], k)
  }

  /** What the row of a membership event has to say. */
  predicate Says(r: MemberRow, e: ChainEvent) {
    && r.added == Joins(e.event) && r.block == e.height
    && r.index == if e.event.SetupOwner? then Some(e.event.index) else None
  }

  /** The key's latest row says what its last event said. */
  predicate SaysLast(rows: seq<MemberRow>, c: seq<ChainEvent>, k: PublicKey) {
    var events, latest := Picked(c, AboutKey(k)), LatestMember(rows, k);
    if events == [] then latest == None else latest.Some? && Says(latest.value, events[|events| - 1])
  }

  lemma {:induction false} MemberStep(t: Tables, c: seq<ChainEvent>, e: ChainEvent, order: nat, k: PublicKey)
    requires SaysLast(t.members, c, k) && k != EMPTY_KEY
    requires FingerprintOf(e) in t.raw ==> !About(e.event, k)
    ensures SaysLast(Ingest(t, e, order).members, c + [e], k)
  {
    PickedSnoc(c, e, AboutKey(k));
    if FingerprintOf(e) !in t.raw {
      var rows, more := t.members, NewMembers(e);
      if more != [] { assert (rows + more)[..|rows|] == rows; } else { assert rows + more == rows; }
    }
  }

  /** After any prefix, in whatever order events are applied. */
  lemma {:induction false} MembersAt(c: seq<ChainEvent>, n: nat, k: PublicKey)
    requires OnlySlotsRepeat(c) && n <= |c| && k != EMPTY_KEY
    ensures SaysLast(Indexed(c[..n]).members, c[..n], k)
  {
    if n > 0 {
      MembersAt(c, n - 1, k);
      IndexedSnoc(c, n - 1);
      if FingerprintOf(c[n - 1]) in Indexed(c[..n - 1]).raw { var i := Repeated(c, n - 1); }
      MemberStep(Indexed(c[..n - 1]), c[..n - 1], c[n - 1], n - 1, k);
      assert c[..n] == c[..n - 1] + [c[n - 1]];
    }
  }

  // ---- owners by events ----

  /** The last event about a key made it an owner. */
  predicate Owned(es: seq<Emitted>, k: PublicKey) {
    es != [] && (if About(es[|es| - 1].event, k) then Joins(es[|es| - 1].event) else Owned(es[..|es| - 1], k))
  }

  ghost predicate MembersInv(g: Guard) {
    var es := g.events;
    && (forall k :: k != EMPTY_KEY ==> (k in OwnerList(g) <==> Owned(es, k)))
    && (forall i, j :: 0 <= i < j < |es| && es[i].event.OwnerChange? ==> !es[j].event.SetupOwner?)
    && (!Initialized(g) ==> OwnerList(g) == [] && forall i ::
        0 <= i < |es| ==> !es[i].event.OwnerChange? && !es[i].event.SetupOwner?)
  }

  lemma {:induction false} OwnedQuiet(es: seq<Emitted>, more: seq<Emitted>, k: PublicKey)
    requires forall i :: 0 <= i < |more| ==> !About(more[i].event, k)
    ensures Owned(es + more, k) <==> Owned(es, k)
    decreases |more|
  {
    if more == [] {
      assert es + more == es;
    } else {
      assert (es + more)[..|es + more| - 1] == es + more[..|more| - 1];
      OwnedQuiet(es, more[..|more| - 1], k);
    }
  }

  lemma {:induction false} OwnedLast(es: seq<Emitted>, e: Emitted, k: PublicKey)
    ensures Owned(es + [e], k) <==> if About(e.event, k) then Joins(e.event) else Owned(es, k)
  {
    assert (es + [e])[..|es|] == es;
  }

  /** Setup rows make exactly the active slots owners. */
  lemma {:induction false} OwnedSetup(es: seq<Emitted>, owners: seq<PublicKey>, n: nat, height: nat, m: nat,
                                      k: PublicKey)
    requires m <= |owners| && k != EMPTY_KEY && !Owned(es, k)
    ensures Owned(es + Stamp(SetupOwnerEvents(owners, n)[..m], height), k)
            <==> k in owners[..if m < n then m else if n < |owners| then n else |owners|]
  {
    var setup := SetupOwnerEvents(owners, n);
    if m == 0 {
      assert es + Stamp(setup[..0], height) == es;
    } else {
      OwnedSetup(es, owners, n, height, m - 1, k);
      assert es + Stamp(setup[..m], height) == (es + Stamp(setup[..m - 1], height)) + [Emitted(setup[m - 1], height)];
      OwnedLast(es + Stamp(setup[..m - 1], height), Emitted(setup[m - 1], height), k);
      if m <= n { assert owners[..m] == owners[..m - 1] + [owners[m - 1]]; }
    }
  }

  lemma {:induction false} QuietMembers(g: Guard, more: seq<Event>, height: nat, g': Guard)
    requires MembersInv(g) && NoOwnerEvents(more) && g'.events == g.events + Stamp(more, height)
    requires OwnerList(g') == OwnerList(g) && (Initialized(g) ==> Initialized(g'))
    ensures MembersInv(g')
  {
    forall k | k != EMPTY_KEY ensures k in OwnerList(g') <==> Owned(g'.events, k) {
      OwnedQuiet(g.events, Stamp(more, height), k);
    }
  }

  lemma {:induction false} SetupMembers(g: Guard, head: Event, owners: seq<PublicKey>, n: nat, tail: seq<Event>,
                                        height: nat, g': Guard)
    requires MembersInv(g) && !Initialized(g) && n <= |owners| && NoOwnerEvents([head]) && NoOwnerEvents(tail)
    requires g'.events == g.events + Stamp([head] + SetupOwnerEvents(owners, n) + tail, height)
    requires Initialized(g') && OwnerList(g') == owners[..n]
    ensures MembersInv(g')
  {
    var setup := SetupOwnerEvents(owners, n);
    var first := g.events + Stamp([head], height);
    assert g'.events == (first + Stamp(setup, height)) + Stamp(tail, height);
    assert setup[..|owners|] == setup;
    forall k | k != EMPTY_KEY ensures k in OwnerList(g') <==> Owned(g'.events, k) {
      OwnedQuiet(g.events, Stamp([head], height), k);
      OwnedSetup(first, owners, n, height, |owners|, k);
      OwnedQuiet(first + Stamp(setup, height), Stamp(tail, height), k);
    }
  }

  lemma {:induction false} ChangeMembers(g: Guard, executed: Event, e: Event, height: nat, g': Guard)
    requires MembersInv(g) && executed.Execution? && e.OwnerChange? && Initialized(g) && Initialized(g')
    requires g'.events == g.events + Stamp([executed, e], height)
    requires forall k :: k in OwnerList(g') <==> if k == e.owner then e.added else k in OwnerList(g)
    ensures MembersInv(g')
  {
    var first := g.events + [Emitted(executed, height)];
    assert g'.events == first + [Emitted(e, height)];
    forall k | k != EMPTY_KEY ensures k in OwnerList(g') <==> Owned(g'.events, k) {
      OwnedLast(g.events, Emitted(executed, height), k);
      OwnedLast(first, Emitted(e, height), k);
    }
  }

  /** An owner change adds or removes exactly the key it names. */
  lemma {:induction false} ChangedMembers(g: Guard, p: Proposal, self: PublicKey, insertAfter: Option<PublicKey>,
                                          slot: nat, k: PublicKey)
    requires CanChangeOwner(self, g, p, insertAfter, slot) && XDistinct(OwnerList(g))
    ensures k in ChangedOwners(g, p, insertAfter) <==> if k == Target(p) then p.txType == ADD_OWNER
              else k in OwnerList(g)
  {
    if p.txType == ADD_OWNER {
      var at := AddInsertsOnce(OwnerList(g), Target(p), insertAfter);
      assert OwnerList(g) == OwnerList(g)[..at] + OwnerList(g)[at..];
    } else {
      OthersStay(OwnerList(g), Target(p), k);
    }
  }

  lemma {:induction false} OthersStay(s: seq<PublicKey>, owner: PublicKey, k: PublicKey)
    ensures k in Without(s, owner) <==> k in s && k != owner
  {
    if s != [] {
      assert s == s[..|s| - 1] + [s[|s| - 1]];
      OthersStay(s[..|s| - 1], owner, k);
    }
  }

  lemma {:induction false} OwnerChangeMembers(w: World, a: PublicKey, c: Call)
    requires Allowed(w, a, c) && c.DoOwnerChange? && MembersInv(Read(w, a)) && XDistinct(OwnerList(Read(w, a)))
    ensures MembersInv(After(w, a, c))
  {
    var g, g', n := Read(w, a), After(w, a, c), NewEvents(w, a, c);
    CallEmits(w, a, c);
    assert n == [n[0], n[1]];
    forall k ensures k in OwnerList(g') <==> if k == n[1].owner then n[1].added else k in OwnerList(g) {
      ChangedMembers(g, c.p, a, c.insertAfter, w.slot, k);
    }
    ChangeMembers(g, n[0], n[1], w.height, g');
  }

  lemma {:induction false} SetupCallMembers(w: World, a: PublicKey, c: Call)
    requires Allowed(w, a, c) && (c.DoSetup? || c.DoSetupChild?) && MembersInv(Read(w, a))
    ensures MembersInv(After(w, a, c))
  {
    CallEmits(w, a, c);
    var n := NewEvents(w, a, c);
    var tail := n[1 + |c.owners|..];
    assert n == [n[0]] + SetupOwnerEvents(c.owners, c.numOwners) + tail;
    SetupMembers(Read(w, a), n[0], c.owners, c.numOwners, tail, w.height, After(w, a, c));
  }

  lemma {:induction false} CallMembers(w: World, a: PublicKey, c: Call)
    requires Allowed(w, a, c) && GuardInv(a, Read(w, a)) && MembersInv(Read(w, a))
    ensures MembersInv(After(w, a, c))
  {
    if c.DoOwnerChange? {
      OwnersOfInv(a, Read(w, a));
      OwnerChangeMembers(w, a, c);
    } else if c.DoSetup? || c.DoSetupChild? {
      SetupCallMembers(w, a, c);
    } else {
      CallEmits(w, a, c);
      OtherCallEvents(w, a, c);
      OtherCallOwners(w, a, c);
      QuietMembers(Read(w, a), NewEvents(w, a, c), w.height, After(w, a, c));
    }
  }

  lemma DeployMembers(height: nat)
    ensures MembersInv(Emit(BLANK, [Deployed], height))
  {
    var es := Emit(BLANK, [Deployed], height).events;
    assert es == [] + [Emitted(Deployed, height)];
    forall k ensures !Owned(es, k) { OwnedLast([], Emitted(Deployed, height), k); }
  }

  lemma StepMembers(w: World, act: Action, a: PublicKey)
    requires a in w.guards ==> GuardInv(a, w.guards[a]) && MembersInv(w.guards[a])
    requires a in Step(w, act).guards
    ensures MembersInv(Step(w, act).guards[a])
  {
    if Can(w, act) && act.Deploy? && act.at == a { DeployMembers(w.height); }
    else if Can(w, act) && act.Invoke? && act.at == a { CallMembers(w, a, act.call); }
  }

  lemma {:induction false} RunMembers(balances: map<PublicKey, nat>, acts: seq<Action>, a: PublicKey)
    requires a in Run(Genesis(balances), acts).guards
    ensures MembersInv(Run(Genesis(balances), acts).guards[a])
  {
    if acts != [] {
      var init := acts[..|acts| - 1];
      var w := Run(Genesis(balances), init);
      RunKeeps(Genesis(balances), init);
      if a in w.guards {
        RunMembers(balances, init, a);
        GuardInvOf(w, a);
      }
      StepMembers(w, acts[|acts| - 1], a);
    }
  }

  lemma ReachableMembers(w: World, a: PublicKey)
    requires Reachable(w) && a in w.guards
    ensures MembersInv(w.guards[a])
  {
    var balances, acts :| w == Run(Genesis(balances), acts);
    RunMembers(balances, acts, a);
  }

  // ---- the members table ----

  lemma {:induction false} LastIsOwned(d: seq<ChainEvent>, es: seq<Emitted>, n: nat, k: PublicKey)
    requires AsEmitted(d, es) && n <= |es|
    ensures var events := Picked(d[..n], AboutKey(k));
            Owned(es[..n], k) <==> events != [] && Joins(events[|events| - 1].event)
  {
    if n > 0 {
      LastIsOwned(d, es, n - 1, k);
      assert d[..n] == d[..n - 1] + [d[n - 1]] && es[..n] == es[..n - 1] + [es[n - 1]];
      PickedSnoc(d[..n - 1], d[n - 1], AboutKey(k));
      OwnedLast(es[..n - 1], es[n - 1], k);
    }
  }

  lemma {:induction false} AboutAscends(g: Guard, d: seq<ChainEvent>, now: nat, k: PublicKey)
    requires MembersInv(g) && HeightsInv(g.events, now) && AsEmitted(d, g.events)
    ensures PickedAscends(d, AboutKey(k))
  {
    forall i, j | 0 <= i < j < |d| && About(d[i].event, k) && About(d[j].event, k)
      ensures ApplyRank(d[i]) <= ApplyRank(d[j]) {
      assert g.events[i].height <= g.events[j].height;
    }
  }

  /**
   After all events of a reachable guard, delivered in chain order, a key is an owner exactly when its latest
   membership row exists and says added; that row is the one of the last event about the key.
   */
  lemma {:induction false} MembersTrackGuard(w: World, a: PublicKey, d: seq<ChainEvent>, k: PublicKey)
    requires Reachable(w) && a in w.guards && AsEmitted(d, w.guards[a].events) && OnlySlotsRepeat(d) && k != EMPTY_KEY
    ensures var latest := LatestMember(Indexed(OrderForApply(d)).members, k);
            && (k in OwnerList(w.guards[a]) <==> latest.Some? && latest.value.added)
            && SaysLast(Indexed(OrderForApply(d)).members, d, k)
  {
    ReachableMembers(w, a);
    ReachableFacts(w, a);
    AppliedMembers(w.guards[a], d, w.height, k);
    OwnedIsSaid(w.guards[a], d, Indexed(OrderForApply(d)).members, k);
  }

  lemma {:induction false} AppliedMembers(g: Guard, d: seq<ChainEvent>, now: nat, k: PublicKey)
    requires MembersInv(g) && HeightsInv(g.events, now) && AsEmitted(d, g.events) && OnlySlotsRepeat(d)
             && k != EMPTY_KEY
    ensures SaysLast(Indexed(OrderForApply(d)).members, d, k)
  {
    var c := OrderForApply(d);
    AboutAscends(g, d, now, k);
    PickedStays(d, AboutKey(k));
    SortedRepeats(d);
    MembersAt(c, |c|, k);
    assert c[..|c|] == c;
  }

  lemma {:induction false} OwnedIsSaid(g: Guard, d: seq<ChainEvent>, rows: seq<MemberRow>, k: PublicKey)
    requires MembersInv(g) && AsEmitted(d, g.events) && SaysLast(rows, d, k) && k != EMPTY_KEY
    ensures k in OwnerList(g) <==> LatestMember(rows, k).Some? && LatestMember(rows, k).value.added
  {
    LastIsOwned(d, g.events, |d|, k);
    assert d[..|d|] == d && g.events[..|d|] == g.events;
  }

  /**
   In any order of delivery the latest row is right exactly when the last applied event about the key is of the kind
   of the last emitted one.
   */
  lemma {:induction false} MemberRight(w: World, a: PublicKey, c: seq<ChainEvent>, k: PublicKey)
    requires Reachable(w) && a in w.guards && OnlySlotsRepeat(c) && k != EMPTY_KEY
    ensures var latest, events := LatestMember(Indexed(c).members, k), Picked(c, AboutKey(k));
            (latest.Some? && latest.value.added <==> k in OwnerList(w.guards[a]))
            <==> (events != [] && Joins(events[|events| - 1].event) <==> Owned(w.guards[a].events, k))
  {
    ReachableMembers(w, a);
    MembersAt(c, |c|, k);
    assert c[..|c|] == c;
  }

  // ---- the delegate column ----

  predicate Delegates(e: Event) { e.Delegate? }

  function LastDelegate(es: seq<Emitted>): (d: Option<PublicKey>)
  {
    if es == [] then None
    else if es[|es| - 1].event.Delegate? then Some(es[|es| - 1].event.delegate)
    else LastDelegate(es[..|es| - 1])
  }

  predicate DelegateInv(g: Guard) {
    g.delegate == if LastDelegate(g.events).Some? then LastDelegate(g.events).value else EMPTY_KEY
  }

  lemma {:induction false} DelegateQuiet(es: seq<Emitted>, more: seq<Emitted>)
    requires forall i :: 0 <= i < |more| ==> !more[i].event.Delegate?
    ensures LastDelegate(es + more) == LastDelegate(es)
    decreases |more|
  {
    if more == [] {
      assert es + more == es;
    } else {
      assert (es + more)[..|es + more| - 1] == es + more[..|more| - 1];
      DelegateQuiet(es, more[..|more| - 1]);
    }
  }

  lemma {:induction false} OtherCallsDelegateNothing(w: World, a: PublicKey, c: Call)
    requires Allowed(w, a, c) && !c.DoDelegate?
    ensures After(w, a, c).delegate == Read(w, a).delegate
    ensures forall i :: 0 <= i < |NewEvents(w, a, c)| ==> !NewEvents(w, a, c)[i].Delegate?
  {
  }

  lemma {:induction false} CallDelegates(w: World, a: PublicKey, c: Call)
    requires Allowed(w, a, c) && DelegateInv(Read(w, a))
    ensures DelegateInv(After(w, a, c))
  {
    var es, more := Read(w, a).events, NewEvents(w, a, c);
    CallEmits(w, a, c);
    if c.DoDelegate? {
      var stamped := Stamp(more, w.height);
      assert |more| == 2 && more[1].Delegate?;
      assert (es + stamped)[|es + stamped| - 1] == stamped[1];
    } else {
      OtherCallsDelegateNothing(w, a, c);
      DelegateQuiet(es, Stamp(more, w.height));
    }
  }

  lemma {:induction false} RunDelegates(balances: map<PublicKey, nat>, acts: seq<Action>, a: PublicKey)
    requires a in Run(Genesis(balances), acts).guards
    ensures DelegateInv(Run(Genesis(balances), acts).guards[a])
  {
    if acts != [] {
      var init, last := acts[..|acts| - 1], acts[|acts| - 1];
      var w := Run(Genesis(balances), init);
      if a in w.guards { RunDelegates(balances, init, a); }
      if Can(w, last) && last.Invoke? && last.at == a { CallDelegates(w, a, last.call); }
      else if a !in w.guards { DelegateQuiet([], Stamp([Deployed], w.height)); }
    }
  }

  /** The delegate of the last picked event. */
  function DelegateIn(picked: seq<ChainEvent>): Option<PublicKey> {
    if picked != [] && picked[|picked| - 1].event.Delegate? then Some(picked[|picked| - 1].event.delegate) else None
  }

  lemma {:induction false} DelegateChange(e: Event)
    ensures e.Delegate? ==> ChangesOf(e).Some? && ChangesOf(e).value.delegate == Some(e.delegate)
    ensures !e.Delegate? && ChangesOf(e).Some? ==> ChangesOf(e).value.delegate == None
  {
  }

  /** The last change of the delegate column, as applied. */
  lemma {:induction false} DelegateOverlay(c: seq<ChainEvent>)
    ensures OverlayAll(NO_FIELDS, Collect(c, ChainChanges)).delegate == DelegateIn(Picked(c, Delegates))
  {
    if c != [] {
      var init, last := c[..|c| - 1], c[|c| - 1];
      DelegateOverlay(init);
      assert c == init + [last];
      PickedSnoc(init, last, Delegates);
      DelegateChange(last.event);
      if ChangesOf(last.event).Some? { OverlaySnoc(Collect(init, ChainChanges), ChangesOf(last.event).value); }
    }
  }

  lemma {:induction false} EmittedDelegate(d: seq<ChainEvent>, es: seq<Emitted>, n: nat)
    requires AsEmitted(d, es) && n <= |es|
    ensures LastDelegate(es[..n]) == DelegateIn(Picked(d[..n], Delegates))
  {
    if n > 0 {
      EmittedDelegate(d, es, n - 1);
      assert d[..n] == d[..n - 1] + [d[n - 1]] && es[..n][..n - 1] == es[..n - 1];
      PickedSnoc(d[..n - 1], d[n - 1], Delegates);
    }
  }

  lemma {:induction false} DelegatesStay(d: seq<ChainEvent>, es: seq<Emitted>, now: nat)
    requires HeightsInv(es, now) && AsEmitted(d, es)
    ensures DelegateIn(Picked(OrderForApply(d), Delegates)) == LastDelegate(es)
  {
    forall i, j | 0 <= i < j < |d| && Delegates(d[i].event) && Delegates(d[j].event)
      ensures ApplyRank(d[i]) <= ApplyRank(d[j])
    {
      assert es[i].height <= es[j].height;
    }
    PickedStays(d, Delegates);
    EmittedDelegate(d, es, |d|);
    assert d[..|d|] == d && es[..|d|] == es;
  }

  /** The delegate column of the latest row is the guard's delegate, and empty until it has one. */
  lemma {:induction false} DelegateTracksGuard(w: World, a: PublicKey, d: seq<ChainEvent>)
    requires Reachable(w) && a in w.guards && Initialized(w.guards[a]) && AsEmitted(d, w.guards[a].events)
    requires OnlySlotsRepeat(d)
    ensures var latest := Latest(Indexed(OrderForApply(d)).configs);
            latest.Some? && w.guards[a].delegate == KeyOr(latest.value.fields.delegate)
  {
    var balances, acts :| w == Run(Genesis(balances), acts);
    RunDelegates(balances, acts, a);
    ReachableFacts(w, a);
    DelegatesStay(d, w.guards[a].events, w.height);
    DelegateOverlay(OrderForApply(d));
    AppliedRow(w, a, d);
  }

  function KeyOr(k: Option<PublicKey>): PublicKey { if k.Some? then k.value else EMPTY_KEY }

  /** The latest row after applying everything. */
  lemma {:induction false} AppliedRow(w: World, a: PublicKey, d: seq<ChainEvent>)
    requires Reachable(w) && a in w.guards && Initialized(w.guards[a]) && AsEmitted(d, w.guards[a].events)
    requires OnlySlotsRepeat(d)
    ensures var c := OrderForApply(d);
            Latest(Indexed(c).configs).Some?
            && Latest(Indexed(c).configs).value.fields == OverlayAll(NO_FIELDS, Collect(c, ChainChanges))
  {
    var c := OrderForApply(d);
    var at, tx := SortedDelivers(d, w.guards[a].events);
    SortedRepeats(d);
    SortedInOrder(d);
    EmittedShows(w, a, d, NonceColumn);
    var some := LastCarrier(d, NonceColumn);
    var i := DecisiveExists(d, NonceColumn, some);
    SortedWrites(d, NonceColumn, i);
    var other := LastCarrier(c, NonceColumn);
    CarrierChanges(c, NonceColumn, other);
    LatestRow(w, a, c, at, tx);
  }
}
