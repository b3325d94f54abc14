/**
 The multisig as its owners know it: who has voted for what, what has been executed, and what an approved
 proposal does. No trees, leaves, commitments or prover arguments: a proposal alone decides what its execution does.
 */
module Multisig {
  import opened Primitives
  import opened ListCommitment
  import opened Guards
  import opened Ledger

  /** Votes cast, LOCAL and lifecycle executions in order, and the configuration. An empty parent marks a root. */
  datatype Vault = Vault(
    ready: bool,
    owners: seq<PublicKey>,
    threshold: nat,
    epoch: nat,
    votes: set<VoteKey>,
    executed: seq<Proposal>,
    forParent: seq<Proposal>,
    parent: PublicKey,
    open: bool,
    reserved: Field,
    delegate: PublicKey)

  const FRESH: Vault := Vault(false, [], 0, 0, {}, [], [], EMPTY_KEY, false, ZERO, EMPTY_KEY)

  datatype Bank = Bank(vaults: map<PublicKey, Vault>, signed: set<Signature>, slot: nat, height: nat)

  function Look(b: Bank, a: PublicKey): Vault { if a in b.vaults then b.vaults[a] else FRESH }

  // ---- proposals ----

  /** From slot `n` on nothing is listed. */
  predicate Lists(p: Proposal, n: nat) {
    |p.receivers| == 9 && forall i :: n <= i < 9 ==> p.receivers[i] == Receiver(EMPTY_KEY, 0)
  }

  /** One key without an amount. */
  predicate Names(p: Proposal) { Lists(p, 1) && p.receivers[0].address != EMPTY_KEY && p.receivers[0].amount == 0 }

  /** Payments of 64 bits each, none to nobody. */
  predicate Pays(p: Proposal) {
    && |p.receivers| == 9
    && forall i :: 0 <= i < 9 ==>
         && p.receivers[i].amount < 0x1_0000_0000_0000_0000
         && (p.receivers[i].address == EMPTY_KEY ==> p.receivers[i].amount == 0)
  }

  /** What each kind of proposal may say. */
  predicate Shape(p: Proposal) {
    && p.tokenId == 1
    && (match p.txType
        case 0 => p.destination == LOCAL && Pays(p) && p.data == Num(0)
        case 1 => p.destination == LOCAL && Names(p) && p.data != Num(0)
        case 2 => p.destination == LOCAL && Names(p) && p.data == Num(0)
        case 3 => p.destination == LOCAL && Lists(p, 0)
        case 4 => p.destination == LOCAL && Lists(p, 1) && p.receivers[0].amount == 0 && p.data == Num(0)
        case 5 => p.destination == REMOTE && Lists(p, 0)
        case 6 => p.destination == LOCAL && Pays(p) && p.data == Num(0)
        case 7 => p.destination == REMOTE && Lists(p, 0)
        case 8 => p.destination == REMOTE && Lists(p, 0) && p.data == Num(0)
        case 9 => p.destination == REMOTE && Lists(p, 0) && (p.data == Num(0) || p.data == Num(1))
        case _ => false)
  }

  /** Before its expiry slot, where zero means none. */
  predicate OnTime(p: Proposal, slot: nat) {
    slot < 0x1_0000_0000 && p.expirySlot < 0x1_0000_0000 && (p.expirySlot != 0 ==> slot <= p.expirySlot)
  }

  /** The proposal is addressed to this vault in its current epoch and has not expired. */
  predicate Live(v: Vault, a: PublicKey, p: Proposal, slot: nat) {
    p.guardAddress == a && p.configNonce == v.epoch && OnTime(p, slot)
  }

  /** A REMOTE proposal is a root's and names a child, a LOCAL one names none. */
  predicate Routed(v: Vault, p: Proposal) {
    if p.destination == REMOTE then v.parent == EMPTY_KEY && p.childAccount != EMPTY_KEY
      else p.childAccount == EMPTY_KEY
  }

  /** Not yet overtaken by an execution where the proposal is to be executed. */
  predicate Ahead(b: Bank, a: PublicKey, p: Proposal) {
    if p.destination != REMOTE then p.nonce > |Look(b, a).executed|
    else if p.txType == 5 then p.nonce == 0
    else
      var child := Look(b, p.childAccount);
      child.ready && child.parent == a && p.nonce > |child.forParent|
  }

  // ---- votes ----

  /** A child that its parent has closed neither votes nor executes anything of its own. */
  predicate Acts(v: Vault) { v.ready && (v.parent != EMPTY_KEY ==> v.open) }

  function Backers(v: Vault, p: Proposal): set<PublicKey> { set k | k in v.votes && k.hash == p :: k.voter }

  predicate MayVote(b: Bank, a: PublicKey, p: Proposal, voter: PublicKey, action: SignedAction) {
    var v := Look(b, a);
    && Acts(v) && Live(v, a, p, b.slot) && Routed(v, p) && Ahead(b, a, p)
    && voter in v.owners && voter !in Backers(v, p) && Signature(voter, p, action) in b.signed
  }

  predicate Carried(v: Vault, p: Proposal) { |Backers(v, p)| >= v.threshold }

  // ---- executions ----

  predicate MayExecute(b: Bank, a: PublicKey, p: Proposal, txType: nat) {
    var v := Look(b, a);
    p.txType == txType && Acts(v) && Live(v, a, p, b.slot) && Carried(v, p) && p.nonce == |v.executed| + 1
  }

  /** The parent's owners decide, on the parent. */
  predicate Ordered(b: Bank, a: PublicKey, p: Proposal) {
    var parent := Look(b, a).parent;
    && parent != EMPTY_KEY && Look(b, parent).ready && p.childAccount == a
    && Live(Look(b, parent), parent, p, b.slot) && Carried(Look(b, parent), p)
  }

  predicate MayObey(b: Bank, a: PublicKey, p: Proposal, txType: nat) {
    p.txType == txType && Look(b, a).ready && Ordered(b, a, p) && p.nonce == |Look(b, a).forParent| + 1
  }

  predicate ValidSetup(owners: seq<PublicKey>, threshold: nat, n: nat) {
    && |owners| == 20 && 1 <= threshold <= n <= 20
    && (forall i :: 0 <= i < 20 ==> (owners[i] == EMPTY_KEY <==> i >= n))
    && (forall i, j :: 0 <= i < j < n ==> owners[i].x != owners[j].x)
  }

  /** Whom the proposal names. */
  function Named(p: Proposal): PublicKey { if |p.receivers| > 0 then p.receivers[0].address else EMPTY_KEY }

  predicate MayAdd(v: Vault, p: Proposal, insertAfter: Option<PublicKey>) {
    && |v.owners| < 20 && (forall o :: o in v.owners ==> o.x != Named(p).x)
    && (insertAfter.Some? ==> insertAfter.value in v.owners)
    && p.data == OwnersHash(Insert(v.owners, Named(p), insertAfter))
  }

  predicate MayRemove(v: Vault, p: Proposal) { Named(p) in v.owners && |v.owners| > v.threshold }

  /** Every recipient is a child of `a` that is set up. */
  predicate ToChildren(b: Bank, a: PublicKey, p: Proposal) {
    forall r :: r in p.receivers && r.address != EMPTY_KEY ==>
      r.address in b.vaults && b.vaults[r.address].ready && b.vaults[r.address].parent == a
  }

  /** When a call on `a` is accepted, balances aside. */
  predicate Permits(b: Bank, a: PublicKey, c: Call) {
    var v := Look(b, a);
    && a in b.vaults
    && match c
       case DoSetup(t, n, owners) => !v.ready && v.parent == EMPTY_KEY && ValidSetup(owners, t, n)
       case DoReserve(parent, _, t, n, owners) =>
         && !v.ready && v.parent == EMPTY_KEY && ValidSetup(owners, t, n)
         && parent != EMPTY_KEY && parent != a && Look(b, parent).ready && Look(b, parent).parent == EMPTY_KEY
       case DoSetupChild(t, n, owners, p) =>
         && !v.ready && ValidSetup(owners, t, n) && p.txType == 5 && p.nonce == 0 && p.guardAddress == v.parent
         && Ordered(b, a, p) && p.data == v.reserved == ConfigHash(owners[..n], t, n)
       case DoPropose(p, voter) =>
         && MayVote(b, a, p, voter, ForPropose) && Shape(p) && Backers(v, p) == {}
         && (p.txType == 3 ==> p.data.Num? && 1 <= p.data.n <= |v.owners|)
       case DoApprove(p, voter) =>
         |p.receivers| == 9 && MayVote(b, a, p, voter, ForApprove) && Backers(v, p) != {} && p !in v.executed
       case DoTransfer(p) => MayExecute(b, a, p, 0)
       case DoAllocate(p) => MayExecute(b, a, p, 6) && ToChildren(b, a, p)
       case DoOwnerChange(p, insertAfter) =>
         || (MayExecute(b, a, p, 1) && MayAdd(v, p, insertAfter))
         || (MayExecute(b, a, p, 2) && MayRemove(v, p))
       case DoThresholdChange(p, t) => MayExecute(b, a, p, 3) && p.data == Num(t) && 1 <= t <= |v.owners|
       case DoDelegate(p) => MayExecute(b, a, p, 4)
       case DoReclaim(p, amount) => MayObey(b, a, p, 7) && p.data == Num(amount) && amount < 0x1_0000_0000_0000_0000
       case DoDestroy(p, _) => MayObey(b, a, p, 8)
       case DoEnable(p, enabled) => MayObey(b, a, p, 9) && p.data == Num(enabled)
  }

  // ---- effects ----

  function NumberOf(f: Field): nat { if f.Num? then f.n else 0 }

  function ListOf(f: Field): seq<PublicKey> { if f.OwnersHash? then f.owners else [] }

  /** What the execution of an approved LOCAL proposal does; nothing but the proposal decides it. */
  function Executing(v: Vault, a: PublicKey, p: Proposal): (r: Vault)
  {
    var done := v.(executed := v.executed + [p]);
    match p.txType
    case 1 => done.(owners := ListOf(p.data), epoch := v.epoch + 1)
    case 2 => done.(owners := Without(v.owners, Named(p)), epoch := v.epoch + 1)
    case 3 => done.(threshold := NumberOf(p.data), epoch := v.epoch + 1)
    case 4 => done.(delegate := if Named(p) == EMPTY_KEY then a else Named(p))
    case _ => done
  }

  /** What the execution of a parent's proposal does to the child. */
  function Obeying(v: Vault, p: Proposal): (r: Vault)
  {
    var done := v.(forParent := v.forParent + [p]);
    match p.txType
    case 8 => done.(open := false, epoch := v.epoch + 1)
    case 9 => if p.data == Num(1) then done.(open := true) else done.(open := false, epoch := v.epoch + 1)
    case _ => done
  }

  function Founded(v: Vault, owners: seq<PublicKey>, threshold: nat): (r: Vault)
  {
    v.(ready := true, owners := owners, threshold := threshold, open := true)
  }

  /** What an accepted call does to its vault. */
  function Effect(v: Vault, a: PublicKey, c: Call): (r: Vault)
  {
    match c
    case DoSetup(t, n, owners) => if n <= |owners| then Founded(v, owners[..n], t) else v
    case DoReserve(parent, _, t, n, owners) =>
      if n <= |owners| then v.(parent := parent, reserved := ConfigHash(owners[..n], t, n)) else v
    case DoSetupChild(t, n, owners, _) =>
      if n <= |owners| then Founded(v, owners[..n], t).(reserved := Num(0)) else v
    case DoPropose(p, voter) => v.(votes := v.votes + {VoteKey(p, voter)})
    case DoApprove(p, voter) => v.(votes := v.votes + {VoteKey(p, voter)})
    case DoTransfer(p) => Executing(v, a, p)
    case DoAllocate(p) => Executing(v, a, p)
    case DoOwnerChange(p, _) => Executing(v, a, p)
    case DoThresholdChange(p, _) => Executing(v, a, p)
    case DoDelegate(p) => Executing(v, a, p)
    case DoReclaim(p, _) => Obeying(v, p)
    case DoDestroy(p, _) => Obeying(v, p)
    case DoEnable(p, _) => Obeying(v, p)
  }

  /** One accepted action. */
  function Next(b: Bank, act: Action): (r: Bank)
  {
    match act
    case Deploy(a) => b.(vaults := b.vaults[a := FRESH])
    case Invoke(a, c) => b.(vaults := b.vaults[a := Effect(Look(b, a), a, c)])
    case Sign(s) => b.(signed := b.signed + {s})
    case Pay(_, _, _) => b
    case Advance(slots, blocks) => b.(slot := b.slot + slots, height := b.height + blocks)
  }
}
