/**
 The verdicts of proposal-record.ts on the counters they really read: the columns of the latest configuration row.
 Such a row need not be any state the guard was ever in, yet none of its counters is ahead of the guard.
 */
module IndexedVerdicts {
  import opened Primitives
  import opened Sequences
  import opened Guards
  import opened GuardInvariant
  import opened Ledger
  import opened LedgerInvariant
  import opened Quorum
  import opened Executions
  import opened EventOrder
  import opened IndexTables
  import opened Reorg
  import opened ReceiverRows
  import opened HonestEvents
  import opened IndexMeaning
  import opened ConfigColumns
  import opened ProposalRecord

  predicate AtMost(v: Option<nat>, n: nat) { v.Some? ==> v.value <= n }

  /** The guard's own events leave nothing but setup's zero in the parentNonce column. */
  predicate Below(f: ConfigFields, g: Guard) {
    AtMost(f.nonce, g.nonce) && AtMost(f.configNonce, g.configNonce) && AtMost(f.parentNonce, 0)
  }

  // ---- one event ----

  lemma {:induction false} EpochBelow(es: seq<Emitted>, n: nat)
    requires n <= |es|
    ensures Epochs(es[..n]) <= Epochs(es)
  {
    assert es == es[..n] + es[n..];
    EpochsConcat(es[..n], es[n..]);
  }

  lemma {:induction false} ExecsBelow(es: seq<Emitted>, n: nat)
    requires n <= |es|
    ensures |Execs(es[..n], LocalKind)| <= |Execs(es, LocalKind)|
  {
    assert es == es[..n] + es[n..];
    ExecsConcat(es[..n], es[n..], LocalKind);
  }

  /** No event of a reachable guard carries a counter the guard has not reached. */
  lemma {:induction false} EventBelow(w: World, a: PublicKey, j: nat)
    requires Reachable(w) && a in w.guards && j < |w.guards[a].events|
    ensures var changes := ChangesOf(w.guards[a].events[j].event); changes.Some? ==> Below(changes.value, w.guards[a])
  {
    var g := w.guards[a];
    var e := g.events[j].event;
    ColumnFacts(w, a);
    if Carries(e, EpochColumn) {
      assert ShowsEpoch(g.events, j);
      EpochBelow(g.events, j + 1);
    }
    if Carries(e, NonceColumn) {
      NonceCarried(g, a, j);
      ExecsBelow(g.events, j + 1);
    }
    CarriedCounters(e);
  }

  lemma CarriedCounters(e: Event)
    ensures ChangesOf(e).Some? ==>
              NumberCell(ChangesOf(e).value.nonce) == Carried(e, NonceColumn)
                && NumberCell(ChangesOf(e).value.configNonce) == Carried(e, EpochColumn)
                && AtMost(ChangesOf(e).value.parentNonce, 0)
  {
  }

  // ---- the rows ----

  predicate RowsBelow(t: Tables, g: Guard) { forall i :: 0 <= i < |t.configs| ==> Below(t.configs[i].fields, g) }

  lemma {:induction false} LatestIsListed(configs: seq<ConfigRow>)
    ensures Latest(configs).Some? ==> exists i :: 0 <= i < |configs| && configs[i] == Latest(configs).value
  {
    if configs != [] {
      var init := configs[..|configs| - 1];
      LatestIsListed(init);
      if Latest(init).Some? {
        var i :| 0 <= i < |init| && init[i] == Latest(init).value;
        assert configs[i] == Latest(init).value;
      }
      assert configs[|configs| - 1] in configs;
    }
  }

  lemma {:induction false} AppendBelow(configs: seq<ConfigRow>, block: nat, order: nat, changes: ConfigFields, g: Guard)
    requires Below(changes, g) && forall i :: 0 <= i < |configs| ==> Below(configs[i].fields, g)
    ensures var r := AppendSnapshot(configs, block, order, changes); forall i :: 0 <= i < |r| ==> Below(r[i].fields, g)
  {
    LatestIsListed(configs);
  }

  lemma {:induction false} IngestBelow(t: Tables, e: ChainEvent, order: nat, g: Guard)
    requires RowsBelow(t, g) && (ChangesBy(t, e.event).Some? ==> Below(ChangesBy(t, e.event).value, g))
    ensures RowsBelow(Ingest(t, e, order), g)
  {
    if ChangesBy(t, e.event).Some? { AppendBelow(t.configs, e.height, order, ChangesBy(t, e.event).value, g); }
  }

  lemma {:induction false} ChangesByType(t: Tables, e: Event)
    requires e.Execution? && e.hash in t.proposals ==> LocalType(e.txType)
    ensures ChangesBy(t, e).Some? ==> ChangesBy(t, e) == ChangesOf(e)
  {
  }

  /** Of the executions only a LOCAL one finds its proposal among the delivered ones. */
  lemma {:induction false} OnlyLocalFound(c: seq<ChainEvent>, g: Guard, self: PublicKey, at: seq<nat>,
                                          tx: nat -> Option<nat>, n: nat)
    requires Delivers(c, g.events, at, tx) && DependsInv(g, self) && n < |c| && c[n].event.Execution?
    ensures c[n].event.hash in Indexed(c[..n]).proposals ==> LocalType(c[n].event.txType)
  {
    var e := c[n].event;
    assert Addressed(g.events[at[n]].event, self);
    ProposalsAt(c, n, e.hash);
    if ProposedBefore(c, n, e.hash) {
      var k :| 0 <= k < n && c[k].event.Proposed? && c[k].event.hash == e.hash;
      assert Addressed(g.events[at[k]].event, self);
    }
  }

  /** One more delivered event. */
  lemma {:induction false} BelowNext(w: World, a: PublicKey, c: seq<ChainEvent>, at: seq<nat>, tx: nat -> Option<nat>,
                                     n: nat)
    requires Reachable(w) && a in w.guards && Delivers(c, w.guards[a].events, at, tx) && n < |c|
    requires RowsBelow(Indexed(c[..n]), w.guards[a])
    ensures RowsBelow(Ingest(Indexed(c[..n]), c[n], n), w.guards[a])
  {
    ReachableFacts(w, a);
    if c[n].event.Execution? { OnlyLocalFound(c, w.guards[a], a, at, tx, n); }
    ChangesByType(Indexed(c[..n]), c[n].event);
    EventBelow(w, a, at[n]);
    IngestBelow(Indexed(c[..n]), c[n], n, w.guards[a]);
  }

  lemma {:induction false} DeliveredBelow(w: World, a: PublicKey, c: seq<ChainEvent>, at: seq<nat>,
                                          tx: nat -> Option<nat>, n: nat)
    requires Reachable(w) && a in w.guards && Delivers(c, w.guards[a].events, at, tx) && n <= |c|
    ensures RowsBelow(Indexed(c[..n]), w.guards[a])
  {
    if n > 0 {
      DeliveredBelow(w, a, c, at, tx, n - 1);
      BelowNext(w, a, c, at, tx, n - 1);
      IndexedSnoc(c, n - 1);
    }
  }

  // ---- the parent's counter ----

  /**
   What setup, or an execution for the parent whose proposal the parent's rows held, has left in the parentNonce
   column.
   */
  predicate ParentNonceFrom(c: seq<ChainEvent>, v: Option<nat>) {
    v.Some? ==> v.value == 0 || exists i :: 0 <= i < |c| && RemoteNonce(c[i].event) == v
  }

  function RemoteNonce(e: Event): Option<nat> {
    if e.Execution? && RemoteType(e.txType) then Some(e.hash.nonce) else None
  }

  lemma {:induction false} ExecListed(es: seq<Emitted>, j: nat, k: Kind)
    requires j < |es| && es[j].event.Execution? && KindOf(es[j].event.txType) == k
    ensures es[j].event.hash in Execs(es, k)
  {
    if j < |es| - 1 { ExecListed(es[..|es| - 1], j, k); }
  }

  lemma {:induction false} RemoteBelow(w: World, a: PublicKey, j: nat)
    requires Reachable(w) && a in w.guards && j < |w.guards[a].events|
    ensures AtMost(RemoteNonce(w.guards[a].events[j].event), w.guards[a].parentNonce)
  {
    var g := w.guards[a];
    ReachableInv(w);
    assert GuardInv(a, g);
    if RemoteNonce(g.events[j].event).Some? {
      var e := g.events[j].event;
      if e.txType == CREATE_CHILD { ExecListed(g.events, j, CreateKind); }
      else {
        ExecListed(g.events, j, LifecycleKind);
        var done := Execs(g.events, LifecycleKind);
        var i :| 0 <= i < |done| && done[i] == e.hash;
      }
    }
  }

  // ---- verdicts ----

  /** The counters of the latest configuration row after these events, with the parent's counter as given. */
  function CountersIn(c: seq<ChainEvent>, parentNonce: Option<nat>): (r: Option<ContractState>)
  {
    var latest := Latest(Indexed(c).configs);
    if latest.Some? then Some(ContractState(latest.value.fields.nonce, parentNonce, latest.value.fields.configNonce))
      else None
  }

  /**
   Whatever part of a guard's events was indexed, in whatever order: no counter of the latest row is ahead of the
   guard.
   */
  lemma {:induction false} IndexLags(w: World, a: PublicKey, c: seq<ChainEvent>, at: seq<nat>, tx: nat -> Option<nat>,
                                     parentNonce: Option<nat>)
    requires Reachable(w) && a in w.guards && Delivers(c, w.guards[a].events, at, tx) && ParentNonceFrom(c, parentNonce)
    ensures Lagging(CountersIn(c, parentNonce), w.guards[a])
  {
    DeliveredBelow(w, a, c, at, tx, |c|);
    assert c[..|c|] == c;
    LatestIsListed(Indexed(c).configs);
    if parentNonce.Some? && parentNonce.value != 0 {
      var i :| 0 <= i < |c| && RemoteNonce(c[i].event) == parentNonce;
      RemoteBelow(w, a, at[i]);
    }
  }

  /** What an index holds of one account: nothing, or the events of a guard. */
  ghost predicate IndexOf(w: World, a: PublicKey, counters: Option<ContractState>) {
    counters.Some? ==>
      a in w.guards && exists c, at, tx, parentNonce ::
        Delivers(c, w.guards[a].events, at, tx) && ParentNonceFrom(c, parentNonce)
          && counters == CountersIn(c, parentNonce)
  }

  lemma {:induction false} IndexOfLags(w: World, a: PublicKey, counters: Option<ContractState>)
    requires Reachable(w) && IndexOf(w, a, counters)
    ensures Lagging(counters, Read(w, a))
  {
    if counters.Some? {
      var c, at, tx, parentNonce :|
        Delivers(c, w.guards[a].events, at, tx) && ParentNonceFrom(c, parentNonce)
          && counters == CountersIn(c, parentNonce);
      IndexLags(w, a, c, at, tx, parentNonce);
    }
  }

  /** A proposal reported invalidated from any partial index of both guards is dead in every continuation of the run. */
  lemma {:induction false} IndexedVerdictIsFinal(w: World, h: Proposal, parent: Option<ContractState>,
                                                 child: Option<ContractState>,
                                                 acts: seq<Action>, b: PublicKey, call: Call)
    requires Reachable(w) && IndexOf(w, h.guardAddress, parent) && IndexOf(w, h.childAccount, child)
    requires DeriveInvalidReason(RowOf(h), parent, child).Some? && Uses(call, h)
    ensures !Allowed(Run(w, acts), b, call)
  {
    IndexOfLags(w, h.guardAddress, parent);
    IndexOfLags(w, h.childAccount, child);
    InvalidatedIsDead(w, h, parent, child, acts, b, call);
  }
}
