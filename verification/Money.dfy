/**
 Where money can go: every action conserves the sum of balances, and a guard's balance falls only
 when one of its approved executions pays exactly what was approved.
 */
module Money {
  import opened Primitives
  import opened Totals
  import opened Guards
  import opened GuardInvariant
  import opened Ledger
  import opened LedgerInvariant
  import opened Quorum

  // ---- conservation ----

  lemma {:induction false} CreditTotal(m: map<PublicKey, nat>, ps: seq<Payment>)
    ensures Total(Credit(m, ps)) == Total(m) + Sum(ps)
  {
    if ps != [] {
      var init, last := ps[..|ps| - 1], ps[|ps| - 1];
      CreditTotal(m, init);
      TotalUpdate(Credit(m, init), last.to, Balance(Credit(m, init), last.to) + last.amount);
    }
  }

  lemma SettleTotal(m: map<PublicKey, nat>, from: PublicKey, ps: seq<Payment>)
    requires Sum(ps) <= Balance(m, from)
    ensures Total(Settle(m, from, ps)) == Total(m)
  {
    var debited := m[from := Balance(m, from) - Sum(ps)];
    TotalUpdate(m, from, Balance(m, from) - Sum(ps));
    CreditTotal(debited, ps);
  }

  lemma StepConserves(w: World, act: Action)
    ensures Total(Step(w, act).balances) == Total(w.balances)
  {
    if Can(w, act) {
      match act
      case Invoke(a, c) => SettleTotal(w.balances, a, Outflow(w, a, c));
      case Pay(from, to, amount) =>
        assert Sum([Payment(to, amount)]) == amount by { assert [Payment(to, amount)][..0] == []; }
        SettleTotal(w.balances, from, [Payment(to, amount)]);
      case _ =>
    }
  }

  /** No run creates or destroys money. */
  lemma {:induction false} RunConserves(w: World, acts: seq<Action>)
    ensures Total(Run(w, acts).balances) == Total(w.balances)
  {
    if acts != [] {
      RunConserves(w, acts[..|acts| - 1]);
      StepConserves(Run(w, acts[..|acts| - 1]), acts[|acts| - 1]);
    }
  }

  // ---- who receives what ----

  /** What a list of payments brings to one account. */
  function Received(ps: seq<Payment>, a: PublicKey): (n: nat)
  {
    if ps == [] then 0
    else Received(ps[..|ps| - 1], a) + (if ps[|ps| - 1].to == a then ps[|ps| - 1].amount else 0)
  }

  lemma {:induction false} CreditBalance(m: map<PublicKey, nat>, ps: seq<Payment>, a: PublicKey)
    ensures Balance(Credit(m, ps), a) == Balance(m, a) + Received(ps, a)
  {
    if ps != [] {
      CreditBalance(m, ps[..|ps| - 1], a);
    }
  }

  /** The sender loses the sum, and every account gains what it was sent. */
  lemma SettleBalance(m: map<PublicKey, nat>, from: PublicKey, ps: seq<Payment>, a: PublicKey)
    requires Sum(ps) <= Balance(m, from)
    ensures Balance(Settle(m, from, ps), a) == Balance(m, a) - (if a == from then Sum(ps) else 0) + Received(ps, a)
  {
    CreditBalance(m[from := Balance(m, from) - Sum(ps)], ps, a);
  }

  function Amounts(rs: seq<Receiver>): (n: nat)
  {
    if rs == [] then 0 else Amounts(rs[..|rs| - 1]) + rs[|rs| - 1].amount
  }

  /** A batch of payments sums to the approved amounts, since empty slots carry zero. */
  lemma {:induction false} PaymentsSum(self: PublicKey, p: Proposal, n: nat)
    requires n <= |p.receivers|
    requires forall i :: 0 <= i < |p.receivers| && p.receivers[i].address == EMPTY_KEY ==> p.receivers[i].amount == 0
    ensures Sum(Payments(self, p)[..n]) == Amounts(p.receivers[..n])
  {
    if n > 0 {
      PaymentsSum(self, p, n - 1);
      assert Payments(self, p)[..n][..n - 1] == Payments(self, p)[..n - 1];
      assert p.receivers[..n][..n - 1] == p.receivers[..n - 1];
    }
  }

  /** The approved amounts addressed to one account. */
  function AmountsTo(rs: seq<Receiver>, b: PublicKey): (n: nat)
  {
    if rs == [] then 0
    else AmountsTo(rs[..|rs| - 1], b) + (if rs[|rs| - 1].address == b then rs[|rs| - 1].amount else 0)
  }

  /** Each account is sent the amounts addressed to it: an empty slot sends zero to the guard itself. */
  lemma {:induction false} PaymentsReach(self: PublicKey, p: Proposal, n: nat, b: PublicKey)
    requires n <= |p.receivers|
    requires forall i :: 0 <= i < |p.receivers| && p.receivers[i].address == EMPTY_KEY ==> p.receivers[i].amount == 0
    ensures Received(Payments(self, p)[..n], b) == AmountsTo(p.receivers[..n], b)
  {
    if n > 0 {
      PaymentsReach(self, p, n - 1, b);
      assert Payments(self, p)[..n][..n - 1] == Payments(self, p)[..n - 1];
      assert p.receivers[..n][..n - 1] == p.receivers[..n - 1];
    }
  }

  lemma RegisteredRules(w: World, a: PublicKey, h: Proposal)
    requires Reachable(w) && a in w.guards && Leaf(w.guards[a].approvals, h) != 0
    ensures WellFormed(h) && ProposeRules(h)
  {
    ReachableInv(w);
    assert GuardInv(a, w.guards[a]);
    assert RegisteredInv(a, w.guards[a].parent, w.guards[a].configNonce, h);
  }

  /**
   What an execution pays: to each account the approved amounts addressed to it for a transfer or an allocation,
   the approved data to the parent for a reclaim, one payment to the parent for a destroy, nothing otherwise.
   */
  lemma {:induction false} ExecutionPaysWhatWasApproved(w: World, a: PublicKey, c: Call)
    requires Reachable(w) && Can(w, Invoke(a, c))
    ensures var ps := Outflow(w, a, c);
            && (c.DoTransfer? || c.DoAllocate? ==>
                  Sum(ps) == Amounts(c.p.receivers) && forall b :: Received(ps, b) == AmountsTo(c.p.receivers, b))
            && (c.DoReclaim? ==> c.p.data.Num? && ps == [Payment(w.guards[a].parent, c.p.data.n)])
            && (c.DoDestroy? ==> |ps| == 1 && ps[0].to == w.guards[a].parent && ps[0].amount <= Balance(w.balances, a))
            && (!(c.DoTransfer? || c.DoAllocate? || c.DoReclaim? || c.DoDestroy?) ==> ps == [])
  {
    if c.DoTransfer? || c.DoAllocate? {
      RegisteredRules(w, a, c.p);
      PaymentsSum(a, c.p, |c.p.receivers|);
      assert Payments(a, c.p)[..|c.p.receivers|] == Payments(a, c.p);
      assert c.p.receivers[..|c.p.receivers|] == c.p.receivers;
      forall b ensures Received(Outflow(w, a, c), b) == AmountsTo(c.p.receivers, b) {
        PaymentsReach(a, c.p, |c.p.receivers|, b);
      }
    } else if c.DoDestroy? {
      assert Outflow(w, a, c)[..0] == [];
    }
  }

  /** A guard's balance falls only through its own execution, backed by a quorum. */
  lemma {:induction false} OnlyExecutionsSpend(w: World, act: Action, a: PublicKey)
    requires Reachable(w) && a in w.guards && Balance(Step(w, act).balances, a) < Balance(w.balances, a)
    ensures act.Invoke? && act.at == a && Can(w, act)
    ensures act.call.DoTransfer? || act.call.DoAllocate? || act.call.DoReclaim? || act.call.DoDestroy?
    ensures var g := Read(w, Approver(w, a, act.call));
            IsQuorum(w.signed, g, act.call.p, Voters(g.voteNullifiers, act.call.p))
    ensures Balance(w.balances, a) - Balance(Step(w, act).balances, a)
            == Sum(Outflow(w, a, act.call)) - Received(Outflow(w, a, act.call), a)
  {
    assert Can(w, act);
    if act.Invoke? {
      SettleBalance(w.balances, act.at, Outflow(w, act.at, act.call), a);
      ExecutionHasQuorum(w, a, act.call);
    } else {
      var ps := [Payment(act.to, act.amount)];
      assert Sum(ps) == act.amount by { assert ps[..0] == []; }
      SettleBalance(w.balances, act.from, ps, a);
    }
  }

  /** While a child's multisig is disabled, all it can pay goes to its parent. */
  lemma DisabledChildPaysParent(w: World, a: PublicKey, c: Call, i: nat)
    requires Reachable(w) && Can(w, Invoke(a, c)) && i < |Outflow(w, a, c)|
    requires w.guards[a].parent != EMPTY_KEY && w.guards[a].childMultiSigEnabled != 1
    ensures Outflow(w, a, c)[i].to == w.guards[a].parent && (c.DoReclaim? || c.DoDestroy?)
  {
  }
}
