/**
 The chain seen by the protocol: every guard account, every balance, the signatures keyholders have
 made, and the current slot and block. A run is any sequence of attempted actions; an attempt whose
 preconditions fail has no proof or is rejected by the ledger, and leaves the world unchanged.
 */
module Ledger {
  import opened Primitives
  import opened Guards

  datatype World = World(
    guards: map<PublicKey, Guard>,
    balances: map<PublicKey, nat>,
    signed: set<Signature>,
    slot: nat,
    height: nat)

  /** A contract method with the arguments that reach its outcome. */
  datatype Call =
    | DoSetup(threshold: nat, numOwners: nat, owners: seq<PublicKey>)
    | DoReserve(parent: PublicKey, hash: Proposal, threshold: nat, numOwners: nat, owners: seq<PublicKey>)
    | DoSetupChild(threshold: nat, numOwners: nat, owners: seq<PublicKey>, p: Proposal)
    | DoPropose(p: Proposal, voter: PublicKey)
    | DoApprove(p: Proposal, voter: PublicKey)
    | DoTransfer(p: Proposal)
    | DoAllocate(p: Proposal)
    | DoOwnerChange(p: Proposal, insertAfter: Option<PublicKey>)
    | DoThresholdChange(p: Proposal, newThreshold: nat)
    | DoDelegate(p: Proposal)
    | DoReclaim(p: Proposal, amount: nat)
    | DoDestroy(p: Proposal, amount: nat)
    | DoEnable(p: Proposal, enabled: nat)

  datatype Action =
    | Deploy(at: PublicKey)
    | Invoke(at: PublicKey, call: Call)
    | Sign(signature: Signature)
    | Pay(from: PublicKey, to: PublicKey, amount: nat)
    | Advance(slots: nat, blocks: nat)

  function Read(w: World, a: PublicKey): (g: Guard) { if a in w.guards then w.guards[a] else BLANK }

  function Balance(balances: map<PublicKey, nat>, a: PublicKey): (b: nat) { if a in balances then balances[a] else 0 }

  /** Allocation recipients; padding slots read the guard itself. */
  function Recipients(w: World, a: PublicKey, p: Proposal): (gs: seq<Guard>)
    ensures |gs| == |p.receivers|
    ensures forall i ::
              0 <= i < |gs| ==>
                gs[i] == Read(w, if p.receivers[i].address == EMPTY_KEY then a else p.receivers[i].address)
  {
    seq(|p.receivers|, i requires 0 <= i < |p.receivers| =>
        Read(w, if p.receivers[i].address == EMPTY_KEY then a else p.receivers[i].address))
  }

  predicate Allowed(w: World, a: PublicKey, c: Call) {
    var g := Read(w, a);
    && a in w.guards
    && match c
       case DoSetup(t, n, owners) => CanSetup(g, t, n, owners)
       case DoReserve(parent, _, t, n, owners) => CanReserve(a, g, parent, Read(w, parent), t, n, owners)
       case DoSetupChild(t, n, owners, p) => CanSetupChild(a, g, Read(w, p.guardAddress), t, n, owners, p, w.slot)
       case DoPropose(p, voter) =>
         CanPropose(a, g, Read(w, NonceAuthority(a, p)), p, voter, w.slot)
           && Signature(voter, p, ForPropose) in w.signed
       case DoApprove(p, voter) =>
         CanApprove(a, g, Read(w, NonceAuthority(a, p)), p, voter, w.slot)
           && Signature(voter, p, ForApprove) in w.signed
       case DoTransfer(p) => CanTransfer(a, g, p, w.slot)
       case DoAllocate(p) => CanAllocate(a, g, p, Recipients(w, a, p), w.slot)
       case DoOwnerChange(p, insertAfter) => CanChangeOwner(a, g, p, insertAfter, w.slot)
       case DoThresholdChange(p, t) => CanChangeThreshold(a, g, p, t, w.slot)
       case DoDelegate(p) => CanDelegate(a, g, p, w.slot)
       case DoReclaim(p, amount) => CanReclaim(a, g, Read(w, g.parent), p, amount, w.slot)
       case DoDestroy(p, _) => CanDestroy(a, g, Read(w, g.parent), p, w.slot)
       case DoEnable(p, enabled) => CanEnable(a, g, Read(w, g.parent), p, enabled, w.slot)
  }

  /** The state the called guard ends in. */
  function After(w: World, a: PublicKey, c: Call): (g': Guard)
    requires Allowed(w, a, c)
  {
    var g := Read(w, a);
    match c
    case DoSetup(t, n, owners) => Initialize(g, t, n, EMPTY_KEY, owners, w.height)
    case DoReserve(parent, hash, t, n, owners) => AfterReserve(a, g, parent, hash, t, n, owners, w.height)
    case DoSetupChild(t, n, owners, p) => AfterSetupChild(g, t, n, owners, p, w.height)
    case DoPropose(p, voter) => AfterPropose(g, p, voter, w.height)
    case DoApprove(p, voter) => AfterApprove(g, p, voter, w.height)
    case DoTransfer(p) => AfterTransfer(g, p, w.height)
    case DoAllocate(p) => AfterTransfer(g, p, w.height)
    case DoOwnerChange(p, insertAfter) => AfterOwnerChange(g, p, insertAfter, w.height)
    case DoThresholdChange(p, t) => AfterThresholdChange(g, p, t, w.height)
    case DoDelegate(p) => AfterDelegate(a, g, p, w.height)
    case DoReclaim(p, amount) => AfterReclaim(g, p, amount, w.height)
    case DoDestroy(p, amount) => AfterDestroy(g, p, amount, w.height)
    case DoEnable(p, enabled) => AfterEnable(g, p, enabled, w.height)
  }

  /** The payments the called guard sends. */
  function Outflow(w: World, a: PublicKey, c: Call): (ps: seq<Payment>)
  {
    match c
    case DoTransfer(p) => Payments(a, p)
    case DoAllocate(p) => Payments(a, p)
    case DoReclaim(_, amount) => [Payment(Read(w, a).parent, amount)]
    case DoDestroy(_, amount) => [Payment(Read(w, a).parent, amount)]
    case _ => []
  }

  function Sum(ps: seq<Payment>): (n: nat) { if ps == [] then 0 else Sum(ps[..|ps| - 1]) + ps[|ps| - 1].amount }

  function Credit(balances: map<PublicKey, nat>, ps: seq<Payment>): (r: map<PublicKey, nat>)
  {
    if ps == [] then balances
    else
      var before, last := Credit(balances, ps[..|ps| - 1]), ps[|ps| - 1];
      before[last.to := Balance(before, last.to) + last.amount]
  }

  /** The sender's own update carries the whole debit and is applied first. */
  function Settle(balances: map<PublicKey, nat>, from: PublicKey, ps: seq<Payment>): (r: map<PublicKey, nat>)
    requires Sum(ps) <= Balance(balances, from)
  {
    Credit(balances[from := Balance(balances, from) - Sum(ps)], ps)
  }

  predicate Can(w: World, act: Action) {
    match act
    case Deploy(a) => a !in w.guards && a != EMPTY_KEY
    case Invoke(a, c) => Allowed(w, a, c) && Sum(Outflow(w, a, c)) <= Balance(w.balances, a)
    case Sign(_) => true
    case Pay(from, to, amount) => from !in w.guards && amount <= Balance(w.balances, from)
    case Advance(_, _) => true
  }

  function Step(w: World, act: Action): (w': World)
  {
    if !Can(w, act) then w else
    match act
    case Deploy(a) => w.(guards := w.guards[a := Emit(BLANK, [Deployed], w.height)])
    case Invoke(a, c) =>
      w.(guards := w.guards[a := After(w, a, c)], balances := Settle(w.balances, a, Outflow(w, a, c)))
    case Sign(s) => w.(signed := w.signed + {s})
    case Pay(from, to, amount) =>
      assert Sum([Payment(to, amount)]) == amount by { assert [Payment(to, amount)][..0] == []; }
      w.(balances := Settle(w.balances, from, [Payment(to, amount)]))
    case Advance(slots, blocks) => w.(slot := w.slot + slots, height := w.height + blocks)
  }

  function Run(w: World, acts: seq<Action>): (w': World)
  {
    if acts == [] then w else Step(Run(w, acts[..|acts| - 1]), acts[|acts| - 1])
  }

  /** Before anything is deployed; balances are arbitrary. */
  function Genesis(balances: map<PublicKey, nat>): (w: World) { World(map[], balances, {}, 0, 0) }

  ghost predicate Reachable(w: World) {
    exists balances, acts :: w == Run(Genesis(balances), acts)
  }
}
