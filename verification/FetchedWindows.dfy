/**
 Fetching a range of blocks and ordering what came back gives the same slice of the apply order as
 ordering the whole chain: restricting to heights commutes with both ordering steps.
 */
module FetchedWindows {
  import opened Primitives
  import opened Sequences
  import opened EventOrder
  import opened Reorg

  /** What the indexer applies of a list of fetched events. */
  function ApplyOrder(fetched: seq<ChainEvent>): (c: seq<ChainEvent>) { OrderForApply(ReverseWithinEachTx(fetched)) }

  function InWindow(lo: int, hi: int): ChainEvent -> Option<ChainEvent> {
    (e: ChainEvent) => if lo <= e.height <= hi then Some(e) else None
  }

  /** The events of the blocks `lo` to `hi`. */
  function Window(c: seq<ChainEvent>, lo: int, hi: int): (r: seq<ChainEvent>) { Collect(c, InWindow(lo, hi)) }

  lemma WindowMember(c: seq<ChainEvent>, lo: int, hi: int, e: ChainEvent)
    ensures e in Window(c, lo, hi) <==> e in c && lo <= e.height <= hi
  {
    CollectMember(c, InWindow(lo, hi), e);
  }

  lemma {:induction false} WindowSnoc(c: seq<ChainEvent>, e: ChainEvent, lo: int, hi: int)
    ensures Window(c + [e], lo, hi) == if lo <= e.height <= hi then Window(c, lo, hi) + [e] else Window(c, lo, hi)
  {
    assert (c + [e])[..|c|] == c;
  }

  // ---- sorting ----

  lemma {:induction false} InsertCommutes(s: seq<ChainEvent>, x: ChainEvent, lo: int, hi: int)
    requires Ascending(s, ApplyRank)
    ensures Window(InsertBy(s, x, ApplyRank), lo, hi) ==
            if lo <= x.height <= hi then InsertBy(Window(s, lo, hi), x, ApplyRank) else Window(s, lo, hi)
  {
    if s == [] || ApplyRank(s[|s| - 1]) <= ApplyRank(x) {
      WindowSnoc(s, x, lo, hi);
      var kept := Window(s, lo, hi);
      if kept != [] {
        WindowMember(s, lo, hi, kept[|kept| - 1]);
        var i :| 0 <= i < |s| && s[i] == kept[|kept| - 1];
      }
    } else {
      var init, last := s[..|s| - 1], s[|s| - 1];
      InsertCommutes(init, x, lo, hi);
      WindowSnoc(InsertBy(init, x, ApplyRank), last, lo, hi);
      var kept := Window(init, lo, hi);
      assert (kept + [last])[..|kept|] == kept;
    }
  }

  lemma {:induction false} SortCommutes(s: seq<ChainEvent>, lo: int, hi: int)
    ensures Window(OrderForApply(s), lo, hi) == OrderForApply(Window(s, lo, hi))
  {
    if s != [] {
      var init, last := s[..|s| - 1], s[|s| - 1];
      SortCommutes(init, lo, hi);
      SortBySorts(init, ApplyRank);
      InsertCommutes(OrderForApply(init), last, lo, hi);
      var kept := Window(init, lo, hi);
      assert (kept + [last])[..|kept|] == kept;
    }
  }

  // ---- grouping by transaction ----

  /** A transaction is in one block. */
  predicate OneBlockPerTx(c: seq<ChainEvent>) {
    forall i, j :: 0 <= i < |c| && 0 <= j < |c| && c[i].txHash.Some? && c[i].txHash == c[j].txHash ==>
      c[i].height == c[j].height
  }

  /** Non-empty groups, each within one block. */
  predicate GroupsInBlocks(gs: seq<Group>) {
    forall i :: 0 <= i < |gs| ==> gs[i].events != [] && forall k ::
      0 <= k < |gs[i].events| ==> gs[i].events[k].height == gs[i].events[0].height
  }

  predicate Kept(g: Group, lo: int, hi: int) { g.events != [] && lo <= g.events[0].height <= hi }

  function KeptGroups(gs: seq<Group>, lo: int, hi: int): (r: seq<Group>)
  {
    if gs == [] then []
    else if Kept(gs[|gs| - 1], lo, hi) then KeptGroups(gs[..|gs| - 1], lo, hi) + [gs[|gs| - 1]]
    else KeptGroups(gs[..|gs| - 1], lo, hi)
  }

  lemma {:induction false} KeptSnoc(gs: seq<Group>, g: Group, lo: int, hi: int)
    ensures KeptGroups(gs + [g], lo, hi) == if Kept(g, lo, hi) then KeptGroups(gs, lo, hi) + [g]
              else KeptGroups(gs, lo, hi)
  {
    assert (gs + [g])[..|gs|] == gs;
  }

  /** The same groups, except that groups without a transaction may be numbered differently. */
  predicate Alike(gs: seq<Group>, hs: seq<Group>) {
    |gs| == |hs| && forall i ::
    0 <= i < |gs| ==> gs[i].events == hs[i].events && (gs[i].key.Tx? || hs[i].key.Tx? ==> gs[i].key == hs[i].key)
  }

  lemma {:induction false} FlattenAlike(gs: seq<Group>, hs: seq<Group>)
    requires Alike(gs, hs)
    ensures Flatten(gs) == Flatten(hs)
  {
    if gs != [] { FlattenAlike(gs[..|gs| - 1], hs[..|hs| - 1]); }
  }

  lemma {:induction false} WindowReversed(es: seq<ChainEvent>, lo: int, hi: int, height: int)
    requires forall i :: 0 <= i < |es| ==> es[i].height == height
    ensures Window(Reversed(es), lo, hi) == if lo <= height <= hi then Reversed(es) else []
  {
    if es != [] {
      WindowReversed(es[..|es| - 1], lo, hi, height);
      CollectConcat([es[|es| - 1]], Reversed(es[..|es| - 1]), InWindow(lo, hi));
      assert [es[|es| - 1]][..0] == [];
    }
  }

  lemma {:induction false} FlattenCommutes(gs: seq<Group>, lo: int, hi: int)
    requires GroupsInBlocks(gs)
    ensures Window(Flatten(gs), lo, hi) == Flatten(KeptGroups(gs, lo, hi))
  {
    if gs != [] {
      var init, last := gs[..|gs| - 1], gs[|gs| - 1];
      FlattenCommutes(init, lo, hi);
      CollectConcat(Flatten(init), Reversed(last.events), InWindow(lo, hi));
      WindowReversed(last.events, lo, hi, last.events[0].height);
      if Kept(last, lo, hi) { FlattenLast(KeptGroups(init, lo, hi), last); }
    }
  }

  /** Which transactions have a group, and in which block. */
  lemma {:induction false} KeptKeys(gs: seq<Group>, lo: int, hi: int, key: GroupKey)
    ensures HasKey(KeptGroups(gs, lo, hi), key) <==> exists i ::
              0 <= i < |gs| && gs[i].key == key && Kept(gs[i], lo, hi)
  {
    if gs != [] {
      var init, last := gs[..|gs| - 1], gs[|gs| - 1];
      KeptKeys(init, lo, hi, key);
      assert gs == init + [last];
      KeptSnoc(init, last, lo, hi);
      HasKeySnoc(KeptGroups(init, lo, hi), last, key);
    }
  }

  lemma HasKeySnoc(gs: seq<Group>, g: Group, key: GroupKey)
    ensures HasKey(gs + [g], key) <==> HasKey(gs, key) || g.key == key
  {
    assert (gs + [g])[|gs|] == g;
    if i :| 0 <= i < |gs| && gs[i].key == key { assert (gs + [g])[i].key == key; }
  }

  lemma AlikeKeys(gs: seq<Group>, hs: seq<Group>, key: GroupKey)
    requires Alike(gs, hs) && key.Tx?
    ensures HasKey(gs, key) <==> HasKey(hs, key)
  {
    if i :| 0 <= i < |gs| && gs[i].key == key { assert hs[i].key == key; }
    if i :| 0 <= i < |hs| && hs[i].key == key { assert gs[i].key == key; }
  }

  lemma PushAlike(gs: seq<Group>, hs: seq<Group>, key: GroupKey, e: ChainEvent)
    requires Alike(gs, hs) && key.Tx?
    ensures Alike(Push(gs, key, e), Push(hs, key, e))
  {
    PushKeys(gs, key, e);
    PushKeys(hs, key, e);
  }

  /** Pushing an event keeps each group kept or dropped as it was. */
  lemma {:induction false} PushCommutes(gs: seq<Group>, key: GroupKey, e: ChainEvent, lo: int, hi: int)
    requires GroupsInBlocks(gs)
    ensures KeptGroups(Push(gs, key, e), lo, hi) == Push(KeptGroups(gs, lo, hi), key, e)
  {
    if gs != [] {
      var init, last := gs[..|gs| - 1], gs[|gs| - 1];
      PushCommutes(init, key, e, lo, hi);
      var grown := if last.key == key then Group(key, last.events + [e]) else last;
      assert Kept(grown, lo, hi) <==> Kept(last, lo, hi);
      KeptSnoc(Push(init, key, e), grown, lo, hi);
      PushSnoc(KeptGroups(init, lo, hi), last, key, e);
    }
  }

  lemma {:induction false} PushSnoc(gs: seq<Group>, g: Group, key: GroupKey, e: ChainEvent)
    ensures Push(gs + [g], key, e) == Push(gs, key, e) + [if g.key == key then Group(key, g.events + [e]) else g]
  {
    assert (gs + [g])[..|gs|] == gs;
  }

  lemma {:induction false} PushDropped(gs: seq<Group>, key: GroupKey, e: ChainEvent)
    requires !HasKey(gs, key)
    ensures Push(gs, key, e) == gs
  {
    PushAbsent(gs, key, e);
  }

  /** Every group of a chain lies in the block of its transaction. */
  lemma {:induction false} GroupedInBlocks(es: seq<ChainEvent>)
    requires OneBlockPerTx(es)
    ensures GroupsInBlocks(Grouped(es))
    ensures forall i, k :: 0 <= i < |Grouped(es)| && 0 <= k < |Grouped(es)[i].events| ==> Grouped(es)[i].events[k] in es
  {
    if es != [] {
      var init, e := es[..|es| - 1], es[|es| - 1];
      assert es == init + [e];
      GroupedInBlocks(init);
      GroupedInv(init);
      AddInBlock(Grouped(init), es, e);
    }
  }

  lemma AddInBlock(gs: seq<Group>, es: seq<ChainEvent>, e: ChainEvent)
    requires OneBlockPerTx(es) && e in es && GroupsInv(gs) && GroupsInBlocks(gs)
    requires forall i, k :: 0 <= i < |gs| && 0 <= k < |gs[i].events| ==> gs[i].events[k] in es
    ensures var r := AddToGroup(gs, e);
            GroupsInBlocks(r) && forall i, k :: 0 <= i < |r| && 0 <= k < |r[i].events| ==> r[i].events[k] in es
  {
    var key := KeyOf(e, |gs|);
    PushKeys(gs, key, e);
    if HasKey(gs, key) {
      forall i | 0 <= i < |gs| && gs[i].key == key ensures gs[i].events[0].height == e.height {
        GroupBlock(gs, es, e, i);
      }
    }
  }

  lemma GroupBlock(gs: seq<Group>, es: seq<ChainEvent>, e: ChainEvent, i: nat)
    requires OneBlockPerTx(es) && e in es && GroupsInv(gs) && i < |gs| && gs[i].events != [] && gs[i].events[0] in es
             && gs[i].key == KeyOf(e, |gs|)
    ensures e.txHash.Some? && gs[i].events[0].height == e.height
  {
    assert gs[i].events[0].txHash == if gs[i].key.Tx? then Some(gs[i].key.hash) else None;
    var p :| 0 <= p < |es| && es[p] == e;
    var q :| 0 <= q < |es| && es[q] == gs[i].events[0];
  }

  lemma PrefixOneBlock(es: seq<ChainEvent>)
    requires OneBlockPerTx(es) && es != []
    ensures OneBlockPerTx(es[..|es| - 1])
  {
  }

  /** An event outside the window changes no kept group. */
  lemma DroppedAdds(gs: seq<Group>, es: seq<ChainEvent>, e: ChainEvent, lo: int, hi: int)
    requires OneBlockPerTx(es) && e in es && GroupsInv(gs) && GroupsInBlocks(gs) && !(lo <= e.height <= hi)
    requires forall i, k :: 0 <= i < |gs| && 0 <= k < |gs[i].events| ==> gs[i].events[k] in es
    ensures KeptGroups(AddToGroup(gs, e), lo, hi) == KeptGroups(gs, lo, hi)
  {
    var key := KeyOf(e, |gs|);
    if HasKey(gs, key) {
      PushCommutes(gs, key, e, lo, hi);
      KeptKeys(gs, lo, hi, key);
      forall i: nat | i < |gs| && gs[i].key == key ensures !Kept(gs[i], lo, hi) { GroupBlock(gs, es, e, i); }
      PushDropped(KeptGroups(gs, lo, hi), key, e);
    } else {
      KeptSnoc(gs, Group(key, [e]), lo, hi);
    }
  }

  lemma {:induction false} AlikeStarts(kept: seq<Group>, hs: seq<Group>, key: GroupKey, key': GroupKey, e: ChainEvent)
    requires Alike(kept, hs) && (key.Tx? || key'.Tx? ==> key == key')
    ensures Alike(kept + [Group(key, [e])], hs + [Group(key', [e])])
  {
  }

  /** An event inside the window is added to the same kept group, or starts one, on both sides. */
  lemma {:induction false} KeptAdds(gs: seq<Group>, hs: seq<Group>, es: seq<ChainEvent>, e: ChainEvent, lo: int,
                                    hi: int)
    requires OneBlockPerTx(es) && e in es && GroupsInv(gs) && GroupsInv(hs) && GroupsInBlocks(gs)
             && lo <= e.height <= hi
    requires forall i, k :: 0 <= i < |gs| && 0 <= k < |gs[i].events| ==> gs[i].events[k] in es
    requires Alike(KeptGroups(gs, lo, hi), hs)
    ensures Alike(KeptGroups(AddToGroup(gs, e), lo, hi), AddToGroup(hs, e))
  {
    var key, key' := KeyOf(e, |gs|), KeyOf(e, |hs|);
    var kept := KeptGroups(gs, lo, hi);
    if e.txHash.Some? {
      KeptHasKey(gs, es, e, lo, hi);
      AlikeKeys(kept, hs, key);
    } else {
      assert !HasKey(gs, NoTx(|gs|)) && !HasKey(hs, NoTx(|hs|));
    }
    if HasKey(gs, key) {
      PushCommutes(gs, key, e, lo, hi);
      PushAlike(kept, hs, key, e);
    } else {
      KeptSnoc(gs, Group(key, [e]), lo, hi);
      AlikeStarts(kept, hs, key, key', e);
    }
  }

  lemma KeptHasKey(gs: seq<Group>, es: seq<ChainEvent>, e: ChainEvent, lo: int, hi: int)
    requires OneBlockPerTx(es) && e in es && GroupsInv(gs) && GroupsInBlocks(gs) && lo <= e.height <= hi
             && e.txHash.Some?
    requires forall i, k :: 0 <= i < |gs| && 0 <= k < |gs[i].events| ==> gs[i].events[k] in es
    ensures HasKey(gs, KeyOf(e, |gs|)) <==> HasKey(KeptGroups(gs, lo, hi), KeyOf(e, |gs|))
  {
    var key := KeyOf(e, |gs|);
    KeptKeys(gs, lo, hi, key);
    if i :| 0 <= i < |gs| && gs[i].key == key { GroupBlock(gs, es, e, i); }
  }

  lemma {:induction false} GroupedWindow(es: seq<ChainEvent>, lo: int, hi: int)
    requires OneBlockPerTx(es)
    ensures Alike(KeptGroups(Grouped(es), lo, hi), Grouped(Window(es, lo, hi)))
  {
    if es != [] {
      var init, e := es[..|es| - 1], es[|es| - 1];
      assert es == init + [e];
      PrefixOneBlock(es);
      GroupedWindow(init, lo, hi);
      GroupedInBlocks(init);
      GroupedInv(init);
      GroupedInv(Window(init, lo, hi));
      WindowSnoc(init, e, lo, hi);
      if lo <= e.height <= hi {
        var kept := Window(init, lo, hi);
        assert (kept + [e])[..|kept|] == kept;
        KeptAdds(Grouped(init), Grouped(kept), es, e, lo, hi);
      } else {
        DroppedAdds(Grouped(init), es, e, lo, hi);
      }
    }
  }

  // ---- slices ----

  lemma {:induction false} WindowAll(c: seq<ChainEvent>, lo: int, hi: int)
    requires forall i :: 0 <= i < |c| ==> lo <= c[i].height <= hi
    ensures Window(c, lo, hi) == c
  {
    if c != [] {
      WindowAll(c[..|c| - 1], lo, hi);
      assert c == c[..|c| - 1] + [c[|c| - 1]];
    }
  }

  lemma WindowSlice(c: seq<ChainEvent>, lo: int, hi: int, from: nat, to: nat)
    requires from <= to && CutAt(c, from, lo - 1) && CutAt(c, to, hi)
    ensures Window(c, lo, hi) == c[from..to]
  {
    var before, within, after := c[..from], c[from..to], c[to..];
    assert c == before + within + after;
    CollectConcat(before + within, after, InWindow(lo, hi));
    CollectConcat(before, within, InWindow(lo, hi));
    CollectNone(before, InWindow(lo, hi));
    CollectNone(after, InWindow(lo, hi));
    WindowAll(within, lo, hi);
  }

  /** Ordering the events fetched for a range of blocks gives that range's slice of the chain in apply order. */
  lemma {:induction false} FetchedSlice(chain: seq<ChainEvent>, lo: int, hi: int, from: nat, to: nat)
    requires OneBlockPerTx(chain) && from <= to && CutAt(ApplyOrder(chain), from, lo - 1)
             && CutAt(ApplyOrder(chain), to, hi)
    ensures ApplyOrder(Window(chain, lo, hi)) == ApplyOrder(chain)[from..to]
  {
    GroupedWindow(chain, lo, hi);
    FlattenAlike(KeptGroups(Grouped(chain), lo, hi), Grouped(Window(chain, lo, hi)));
    GroupedInBlocks(chain);
    FlattenCommutes(Grouped(chain), lo, hi);
    SortCommutes(ReverseWithinEachTx(chain), lo, hi);
    WindowSlice(ApplyOrder(chain), lo, hi, from, to);
  }

  lemma ApplyOrderAscends(chain: seq<ChainEvent>)
    ensures HeightsAscend(ApplyOrder(chain))
  {
    SortBySorts(ReverseWithinEachTx(chain), ApplyRank);
    RankOrders(ApplyOrder(chain));
  }
}
