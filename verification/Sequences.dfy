/**
 Sequence operations of the off-chain mirrors (first entry per key, stable sort, leaf-raising fold)
 with the laws that make their results independent of delivery order.
 */
module Sequences {
  import opened Primitives

  // ---- filtering ----

  /** The defined images of the elements, in order. */
  function Collect<T, U>(s: seq<T>, f: T -> Option<U>): (r: seq<U>)
  {
    if s == [] then []
    else
      var init, last := Collect(s[..|s| - 1], f), f(s[|s| - 1]);
      if last.Some? then init + [last.value] else init
  }

  lemma {:induction false} CollectMember<T(!new), U>(s: seq<T>, f: T -> Option<U>, u: U)
    ensures u in Collect(s, f) <==> exists x :: x in s && f(x) == Some(u)
  {
    if s != [] {
      var init, last := s[..|s| - 1], s[|s| - 1];
      assert s == init + [last];
      CollectMember(init, f, u);
      if f(last) == Some(u) { assert last in s; }
    }
  }

  lemma {:induction false} CollectConcat<T, U>(s: seq<T>, more: seq<T>, f: T -> Option<U>)
    ensures Collect(s + more, f) == Collect(s, f) + Collect(more, f)
    decreases |more|
  {
    if more == [] {
      assert s + more == s;
    } else {
      assert (s + more)[..|s + more| - 1] == s + more[..|more| - 1];
      CollectConcat(s, more[..|more| - 1], f);
    }
  }

  lemma {:induction false} CollectNone<T, U>(s: seq<T>, f: T -> Option<U>)
    requires forall i :: 0 <= i < |s| ==> f(s[i]) == None
    ensures Collect(s, f) == []
  {
    if s != [] { CollectNone(s[..|s| - 1], f); }
  }

  ghost predicate SameElements<T(!new)>(s: seq<T>, t: seq<T>) { forall x :: x in s <==> x in t }

  lemma CollectSame<T(!new), U(!new)>(s: seq<T>, t: seq<T>, f: T -> Option<U>)
    requires SameElements(s, t)
    ensures SameElements(Collect(s, f), Collect(t, f))
  {
    forall u ensures u in Collect(s, f) <==> u in Collect(t, f) {
      CollectMember(s, f, u);
      CollectMember(t, f, u);
    }
  }

  // ---- the first element of each key ----

  function FirstPer<T, K(==)>(s: seq<T>, key: T -> K): (r: seq<T>)
  {
    if s == [] then []
    else
      var init, last := FirstPer(s[..|s| - 1], key), s[|s| - 1];
      if exists i :: 0 <= i < |init| && key(init[i]) == key(last) then init else init + [last]
  }

  /** Where equal keys mean equal elements, only repetitions are dropped. */
  lemma {:induction false} FirstPerSame<T(!new), K>(s: seq<T>, key: T -> K)
    requires forall x, y :: x in s && y in s && key(x) == key(y) ==> x == y
    ensures SameElements(FirstPer(s, key), s)
    ensures forall i, j :: 0 <= i < j < |FirstPer(s, key)| ==> key(FirstPer(s, key)[i]) != key(FirstPer(s, key)[j])
  {
    if s != [] {
      var init, last := s[..|s| - 1], s[|s| - 1];
      assert s == init + [last];
      FirstPerSame(init, key);
      var r := FirstPer(init, key);
      if i :| 0 <= i < |r| && key(r[i]) == key(last) {
        assert r[i] in init;
        assert r[i] == last;
      }
    }
  }

  // ---- stable sort ----

  predicate Ascending<T>(s: seq<T>, rank: T -> int) {
    forall i, j :: 0 <= i < j < |s| ==> rank(s[i]) <= rank(s[j])
  }

  predicate StrictlyAscending<T>(s: seq<T>, rank: T -> int) {
    forall i, j :: 0 <= i < j < |s| ==> rank(s[i]) < rank(s[j])
  }

  /** Places `x` behind everything of at most its rank. */
  function InsertBy<T>(s: seq<T>, x: T, rank: T -> int): (r: seq<T>)
  {
    if s == [] || rank(s[|s| - 1]) <= rank(x) then s + [x]
    else InsertBy(s[..|s| - 1], x, rank) + [s[|s| - 1]]
  }

  function SortBy<T>(s: seq<T>, rank: T -> int): (r: seq<T>)
  {
    if s == [] then [] else InsertBy(SortBy(s[..|s| - 1], rank), s[|s| - 1], rank)
  }

  lemma {:induction false} InsertBySorts<T>(s: seq<T>, x: T, rank: T -> int)
    requires Ascending(s, rank)
    ensures multiset(InsertBy(s, x, rank)) == multiset(s) + multiset{x}
    ensures Ascending(InsertBy(s, x, rank), rank)
  {
    if s != [] && rank(s[|s| - 1]) > rank(x) {
      var init, last := s[..|s| - 1], s[|s| - 1];
      assert s == init + [last];
      InsertBySorts(init, x, rank);
      InsertedBelow(init, x, rank, InsertBy(init, x, rank), last);
    }
  }

  lemma InsertedBelow<T>(s: seq<T>, x: T, rank: T -> int, r: seq<T>, last: T)
    requires multiset(r) == multiset(s) + multiset{x} && Ascending(r, rank)
    requires rank(x) <= rank(last) && forall i :: 0 <= i < |s| ==> rank(s[i]) <= rank(last)
    ensures Ascending(r + [last], rank)
  {
    forall i | 0 <= i < |r| ensures rank(r[i]) <= rank(last) {
      assert r[i] in multiset(r);
    }
  }

  lemma {:induction false} SortBySorts<T>(s: seq<T>, rank: T -> int)
    ensures multiset(SortBy(s, rank)) == multiset(s)
    ensures Ascending(SortBy(s, rank), rank)
  {
    if s != [] {
      assert s == s[..|s| - 1] + [s[|s| - 1]];
      SortBySorts(s[..|s| - 1], rank);
      InsertBySorts(SortBy(s[..|s| - 1], rank), s[|s| - 1], rank);
    }
  }

  /** The elements of one rank, in order. */
  function OfRank<T>(s: seq<T>, rank: T -> int, v: int): (r: seq<T>)
  {
    if s == [] then []
    else if rank(s[|s| - 1]) == v then OfRank(s[..|s| - 1], rank, v) + [s[|s| - 1]]
    else OfRank(s[..|s| - 1], rank, v)
  }

  lemma {:induction false} OfRankNone<T>(s: seq<T>, rank: T -> int, v: int)
    requires forall i :: 0 <= i < |s| ==> rank(s[i]) != v
    ensures OfRank(s, rank, v) == []
  {
    if s != [] { OfRankNone(s[..|s| - 1], rank, v); }
  }

  lemma {:induction false} InsertByStable<T>(s: seq<T>, x: T, rank: T -> int, v: int)
    requires Ascending(s, rank)
    ensures OfRank(InsertBy(s, x, rank), rank, v) == if rank(x) == v then OfRank(s, rank, v) + [x]
              else OfRank(s, rank, v)
  {
    if s == [] || rank(s[|s| - 1]) <= rank(x) {
      assert (s + [x])[..|s|] == s;
    } else {
      var init, last := s[..|s| - 1], s[|s| - 1];
      InsertByStable(init, x, rank, v);
      assert (InsertBy(init, x, rank) + [last])[..|InsertBy(init, x, rank)|] == InsertBy(init, x, rank);
    }
  }

  /** Elements of equal rank keep their order. */
  lemma {:induction false} SortByStable<T>(s: seq<T>, rank: T -> int, v: int)
    ensures OfRank(SortBy(s, rank), rank, v) == OfRank(s, rank, v)
  {
    if s != [] {
      SortByStable(s[..|s| - 1], rank, v);
      SortBySorts(s[..|s| - 1], rank);
      InsertByStable(SortBy(s[..|s| - 1], rank), s[|s| - 1], rank, v);
    }
  }

  lemma LastIsLargest<T>(s: seq<T>, rank: T -> int, x: T)
    requires StrictlyAscending(s, rank) && s != []
    ensures x in s[..|s| - 1] <==> x in s && x != s[|s| - 1]
    ensures x in s ==> rank(x) <= rank(s[|s| - 1])
    ensures StrictlyAscending(s[..|s| - 1], rank)
  {
    assert s == s[..|s| - 1] + [s[|s| - 1]];
    if x in s[..|s| - 1] {
      var i :| 0 <= i < |s| - 1 && s[i] == x;
      assert rank(s[i]) < rank(s[|s| - 1]);
    }
  }

  /** Elements in strictly ascending order are determined by which they are. */
  lemma {:induction false} StrictOrderUnique<T(!new)>(s: seq<T>, t: seq<T>, rank: T -> int)
    requires StrictlyAscending(s, rank) && StrictlyAscending(t, rank) && SameElements(s, t)
    ensures s == t
  {
    assert s != [] ==> s[0] in t;
    assert t != [] ==> t[0] in s;
    if s != [] {
      var a, b := s[|s| - 1], t[|t| - 1];
      LastIsLargest(s, rank, b);
      LastIsLargest(t, rank, a);
      assert a in s && b in t;
      assert a == b;
      var s', t' := s[..|s| - 1], t[..|t| - 1];
      forall x ensures x in s' <==> x in t' {
        LastIsLargest(s, rank, x);
        LastIsLargest(t, rank, x);
      }
      StrictOrderUnique(s', t', rank);
      assert s == s' + [a] && t == t' + [b];
    }
  }

  lemma {:induction false} OnceCounted<T, K>(s: seq<T>, key: T -> K, x: T)
    requires forall i, j :: 0 <= i < j < |s| ==> key(s[i]) != key(s[j])
    ensures multiset(s)[x] <= 1
  {
    if s != [] {
      var init, last := s[..|s| - 1], s[|s| - 1];
      assert s == init + [last];
      OnceCounted(init, key, x);
      forall i | 0 <= i < |init| ensures init[i] != last {
        assert init[i] == s[i] && key(s[i]) != key(s[|s| - 1]);
      }
    }
  }

  lemma OnceCountedDistinct<T>(s: seq<T>, i: nat, j: nat)
    requires i < j < |s| && multiset(s)[s[i]] <= 1
    ensures s[i] != s[j]
  {
    assert s == s[..j] + s[j..];
    assert s[i] in s[..j] && s[j] in s[j..];
    assert multiset(s) == multiset(s[..j]) + multiset(s[j..]);
  }

  lemma PermutationSame<T(!new)>(s: seq<T>, t: seq<T>)
    requires multiset(s) == multiset(t)
    ensures SameElements(s, t)
  {
    forall x ensures x in s <==> x in t {
      assert x in s <==> x in multiset(s);
      assert x in t <==> x in multiset(t);
    }
  }

  lemma RankDetermines<T>(truth: seq<T>, rank: T -> int, x: T, y: T)
    requires StrictlyAscending(truth, rank) && x in truth && y in truth && rank(x) == rank(y)
    ensures x == y
  {
    var m :| 0 <= m < |truth| && truth[m] == x;
    var n :| 0 <= n < |truth| && truth[n] == y;
    assert !(m < n) && !(n < m);
  }

  /** Sorting entries of distinct ranks leaves no ties. */
  lemma SortedStrictly<T(!new)>(firsts: seq<T>, rank: T -> int)
    requires forall x, y :: x in firsts && y in firsts && rank(x) == rank(y) ==> x == y
    requires forall x :: x in firsts ==> multiset(firsts)[x] <= 1
    ensures StrictlyAscending(SortBy(firsts, rank), rank)
  {
    SortBySorts(firsts, rank);
    var sorted := SortBy(firsts, rank);
    PermutationSame(sorted, firsts);
    forall i, j | 0 <= i < j < |sorted| ensures rank(sorted[i]) < rank(sorted[j]) {
      assert sorted[i] in firsts && sorted[j] in firsts;
      OnceCountedDistinct(sorted, i, j);
    }
  }

  /**
   Deduplicating and sorting any delivery of the elements of `truth`, repeated and permuted at
   will, restores `truth`.
   */
  lemma {:induction false} OrderRestored<T(!new), K>(delivered: seq<T>, truth: seq<T>, key: T -> K, rank: T -> int)
    requires SameElements(delivered, truth) && StrictlyAscending(truth, rank)
    requires forall x, y :: x in truth && y in truth && key(x) == key(y) ==> x == y
    ensures SortBy(FirstPer(delivered, key), rank) == truth
  {
    FirstPerSame(delivered, key);
    var firsts := FirstPer(delivered, key);
    forall x | x in firsts ensures multiset(firsts)[x] <= 1 { OnceCounted(firsts, key, x); }
    forall x, y | x in firsts && y in firsts && rank(x) == rank(y) ensures x == y { RankDetermines(truth, rank, x, y); }
    SortedStrictly(firsts, rank);
    SortBySorts(firsts, rank);
    PermutationSame(SortBy(firsts, rank), firsts);
    StrictOrderUnique(SortBy(firsts, rank), truth, rank);
  }

  // ---- raising leaves ----

  datatype Write<K> = Write(key: K, value: nat)

  /** Keeps the larger of the stored and the written value. */
  function Raise<K(!new)>(m: map<K, nat>, w: Option<Write<K>>): (r: map<K, nat>)
  {
    if w.Some? && w.value.value > Leaf(m, w.value.key) then Put(m, w.value.key, w.value.value) else m
  }

  function RaiseAll<K(!new), T>(m: map<K, nat>, s: seq<T>, write: T -> Option<Write<K>>): (r: map<K, nat>)
  {
    if s == [] then m else Raise(RaiseAll(m, s[..|s| - 1], write), write(s[|s| - 1]))
  }

  predicate Canonical<K(!new)>(m: map<K, nat>) { forall k :: k in m ==> m[k] != 0 }

  lemma SameLeaves<K(!new)>(m: map<K, nat>, n: map<K, nat>)
    requires Canonical(m) && Canonical(n) && forall k :: Leaf(m, k) == Leaf(n, k)
    ensures m == n
  {
    forall k ensures k in m <==> k in n {
      assert Leaf(m, k) == Leaf(n, k);
    }
    forall k | k in m ensures m[k] == n[k] {
      assert Leaf(m, k) == Leaf(n, k);
    }
  }

  ghost predicate WritesTo<K(!new), T>(x: T, write: T -> Option<Write<K>>, k: K, v: nat) {
    write(x) == Some(Write(k, v))
  }

  /** A folded leaf is the largest of the initial leaf and the values written to it. */
  lemma {:induction false} RaisedLeaf<K(!new), T(!new)>(m: map<K, nat>, s: seq<T>, write: T -> Option<Write<K>>, k: K)
    ensures var v := Leaf(RaiseAll(m, s, write), k);
            && v >= Leaf(m, k)
            && (forall x :: x in s && write(x).Some? && write(x).value.key == k ==> write(x).value.value <= v)
            && (v == Leaf(m, k) || exists x :: x in s && WritesTo(x, write, k, v))
    ensures Canonical(m) ==> Canonical(RaiseAll(m, s, write))
  {
    if s != [] {
      var init, last := s[..|s| - 1], s[|s| - 1];
      assert s == init + [last];
      RaisedLeaf(m, init, write, k);
      var before, after := Leaf(RaiseAll(m, init, write), k), Leaf(RaiseAll(m, s, write), k);
      if after != before {
        assert WritesTo(last, write, k, after) && last in s;
      } else if after != Leaf(m, k) {
        var x :| x in init && WritesTo(x, write, k, after);
        assert x in s;
      }
    }
  }

  /** The fold depends only on which elements are delivered, not on their order or repetition. */
  lemma {:induction false} RaiseAllSame<K(!new), T(!new)>(m: map<K, nat>, s: seq<T>, t: seq<T>,
                                                          write: T -> Option<Write<K>>)
    requires Canonical(m) && SameElements(s, t)
    ensures RaiseAll(m, s, write) == RaiseAll(m, t, write)
  {
    var a, b := RaiseAll(m, s, write), RaiseAll(m, t, write);
    forall k ensures Leaf(a, k) == Leaf(b, k) {
      RaisedAtMost(m, s, t, write, k);
      RaisedAtMost(m, t, s, write, k);
    }
    if k: K :| k in a { RaisedLeaf(m, s, write, k); }
    if k: K :| k in b { RaisedLeaf(m, t, write, k); }
    SameLeaves(a, b);
  }

  lemma RaisedAtMost<K(!new), T(!new)>(m: map<K, nat>, s: seq<T>, t: seq<T>, write: T -> Option<Write<K>>, k: K)
    requires forall x :: x in s ==> x in t
    ensures Leaf(RaiseAll(m, s, write), k) <= Leaf(RaiseAll(m, t, write), k)
  {
    RaisedLeaf(m, s, write, k);
    RaisedLeaf(m, t, write, k);
    var v := Leaf(RaiseAll(m, s, write), k);
    if v != Leaf(m, k) {
      var x :| x in s && WritesTo(x, write, k, v);
      assert x in t;
    }
  }

  lemma {:induction false} RaiseAllConcat<K(!new), T>(m: map<K, nat>, s: seq<T>, more: seq<T>,
                                                      write: T -> Option<Write<K>>)
    ensures RaiseAll(m, s + more, write) == RaiseAll(RaiseAll(m, s, write), more, write)
    decreases |more|
  {
    if more == [] {
      assert s + more == s;
    } else {
      assert (s + more)[..|s + more| - 1] == s + more[..|more| - 1];
      RaiseAllConcat(m, s, more[..|more| - 1], write);
    }
  }

  lemma {:induction false} RaiseAllQuiet<K(!new), T>(m: map<K, nat>, s: seq<T>, write: T -> Option<Write<K>>)
    requires forall i :: 0 <= i < |s| ==> Raise(m, write(s[i])) == m
    ensures RaiseAll(m, s, write) == m
  {
    if s != [] { RaiseAllQuiet(m, s[..|s| - 1], write); }
  }

  lemma {:induction false} RaiseAllNone<K(!new), T>(m: map<K, nat>, s: seq<T>, write: T -> Option<Write<K>>)
    requires forall i :: 0 <= i < |s| ==> write(s[i]).None?
    ensures RaiseAll(m, s, write) == m
  {
    if s != [] { RaiseAllNone(m, s[..|s| - 1], write); }
  }

  // ---- numbered folds ----

  /** Feeds the elements to `f` in order, numbered from `base`. */
  function Fold<T, E>(t: T, es: seq<E>, base: nat, f: (T, E, nat) -> T): (r: T)
  {
    if es == [] then t else f(Fold(t, es[..|es| - 1], base, f), es[|es| - 1], base + |es| - 1)
  }

  lemma {:induction false} FoldConcat<T, E>(t: T, es: seq<E>, more: seq<E>, base: nat, f: (T, E, nat) -> T)
    ensures Fold(t, es + more, base, f) == Fold(Fold(t, es, base, f), more, base + |es|, f)
    decreases |more|
  {
    if more == [] {
      assert es + more == es;
    } else {
      assert (es + more)[..|es + more| - 1] == es + more[..|more| - 1];
      FoldConcat(t, es, more[..|more| - 1], base, f);
    }
  }

  /** A relation kept by every step is kept by the whole fold. */
  lemma {:induction false} FoldRelated<T(!new), E>(t: T, s: T, es: seq<E>, i: nat, j: nat, f: (T, E, nat) -> T,
                                                   rel: (T, T, nat) -> bool)
    requires rel(t, s, 0)
    requires forall k: nat, x, y :: k < |es| && rel(x, y, k) ==> rel(f(x, es[k], i + k), f(y, es[k], j + k), k + 1)
    ensures rel(Fold(t, es, i, f), Fold(s, es, j, f), |es|)
  {
    if es != [] {
      var init := es[..|es| - 1];
      assert forall k: nat :: k < |init| ==> init[k] == es[k];
      FoldRelated(t, s, init, i, j, f, rel);
      assert rel(Fold(t, init, i, f), Fold(s, init, j, f), |init|);
    }
  }
}
