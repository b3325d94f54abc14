/**
 Symbolic building blocks shared by the contract and its off-chain mirrors.

 Poseidon is modelled as a free constructor: an owner chain is a term built from `Start` and
 `Link`, so two commitments are equal exactly when the hashed inputs are. A Merkle map is the
 finite map of its non-zero leaves, so two roots are equal exactly when all leaves agree.
 */
module Primitives {

  /** Order of the Pallas base field, in which approval leaves live. */
  const FIELD_ORDER: nat := 28948022309329048855892746252171976963363056481941560715954676764349967630337
  const MAX_OWNERS: nat := 20
  const MAX_RECEIVERS: nat := 9
  const PROPOSED_MARKER: nat := 1
  const EXECUTED_MARKER: nat := FIELD_ORDER - 1
  const UINT32_MAX: nat := 0xFFFF_FFFF
  const UINT64_MAX: nat := 0xFFFF_FFFF_FFFF_FFFF

  datatype Option<+T> = None | Some(value: T)

  /** A key and its negation share `x` and differ only in `isOdd`; one secret holds both. */
  datatype PublicKey = PublicKey(x: nat, isOdd: bool)

  const EMPTY_KEY: PublicKey := PublicKey(0, false)

  /** The owner hash chain: INITIAL_OWNER_CHAIN and ownerChainLink. */
  datatype Chain = Start | Link(prev: Chain, owner: PublicKey)

  /**
   A field element that the contract stores or compares: a plain number or a tagged hash. An owner
   commitment is written by the list it commits to; `Digest` is the field value of a chain.
   */
  datatype Field =
    | Num(n: nat)
    | OwnersHash(owners: seq<PublicKey>)
    | ConfigHash(owners: seq<PublicKey>, threshold: nat, numOwners: nat)

  const ZERO: Field := Num(0)

  /** The list a chain commits to. */
  function Owners(c: Chain): (s: seq<PublicKey>)
  {
    match c
    case Start => []
    case Link(prev, owner) => Owners(prev) + [owner]
  }

  /** The commitment of a list: computeOwnerChain as a recursive definition. */
  function ChainOf(s: seq<PublicKey>): (c: Chain)
  {
    if s == [] then Start else Link(ChainOf(s[..|s| - 1]), s[|s| - 1])
  }

  /** Chains and lists are in bijection, so a commitment determines the owners and their order. */
  lemma {:induction false} ChainDeterminesOwners(c: Chain, s: seq<PublicKey>)
    ensures ChainOf(Owners(c)) == c
    ensures Owners(ChainOf(s)) == s
    decreases c, |s|
  {
    match c {
      case Start =>
        if s != [] {
          ChainDeterminesOwners(c, s[..|s| - 1]);
          assert s == s[..|s| - 1] + [s[|s| - 1]];
        }
      case Link(prev, owner) =>
        ChainDeterminesOwners(prev, s);
        assert Owners(c)[..|Owners(c)| - 1] == Owners(prev);
    }
  }

  function Digest(c: Chain): (f: Field) { OwnersHash(Owners(c)) }

  lemma {:induction false} ChainSnoc(s: seq<PublicKey>, pk: PublicKey)
    ensures ChainOf(s + [pk]) == Link(ChainOf(s), pk)
  {
    assert (s + [pk])[..|s|] == s;
  }

  lemma {:induction false} DigestOfChain(s: seq<PublicKey>)
    ensures Digest(ChainOf(s)) == OwnersHash(s)
  {
    ChainDeterminesOwners(Start, s);
  }

  /** Distinct keyholders: no two entries share an x-coordinate. */
  predicate XDistinct(s: seq<PublicKey>) {
    forall i, j :: 0 <= i < j < |s| ==> s[i].x != s[j].x
  }

  /** Addition of one in the field: the successor wraps at the field order. */
  function FieldSucc(n: nat): (r: nat)
    ensures n < FIELD_ORDER ==> r == (n + 1) % FIELD_ORDER
  {
    if n + 1 >= FIELD_ORDER then n + 1 - FIELD_ORDER else n + 1
  }

  // ---- Merkle maps ----

  function Leaf<K>(m: map<K, nat>, k: K): (v: nat)
    ensures v != 0 ==> k in m
  {
    if k in m then m[k] else 0
  }

  /** Writing zero restores the empty leaf. */
  function Put<K(!new)>(m: map<K, nat>, k: K, v: nat): (r: map<K, nat>)
    ensures Leaf(r, k) == v
    ensures forall j :: j != k ==> Leaf(r, j) == Leaf(m, j)
  {
    if v == 0 then m - {k} else m[k := v]
  }

  /** A prover-supplied authentication path: the rest of some tree, and the key it opens. */
  datatype Witness<K(!new)> = Witness(siblings: map<K, nat>, key: K) {
    function Root(v: nat): map<K, nat> { Put(siblings, key, v) }
  }

  /**
   A path that reproduces the stored root can only claim the stored leaf, and recomputing the
   root with a new value changes that leaf alone.
   */
  lemma {:induction false} WitnessOpens<K(!new)>(w: Witness<K>, root: map<K, nat>, claimed: nat, written: nat)
    requires w.Root(claimed) == root
    ensures Leaf(root, w.key) == claimed
    ensures w.Root(written) == Put(root, w.key, written)
  {
    assert forall k :: k != w.key ==> (k in root <==> k in w.siblings);
  }
}
