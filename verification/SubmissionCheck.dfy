/**
 The limiter of submission-check.ts: checks in flight, counted in total and per proposal. A check
 starts inside `Run` and its settlement runs later, in any interleaving with other calls.
 */
module SubmissionCheck {
  import opened Totals

  /** What identifies a report; identical reports share one check. */
  datatype Report = Report(proposalId: nat, action: string, txHash: string)

  datatype Outcome = Shared(check: nat) | Started(check: nat) | Refused

  function OfProposal(running: map<Report, nat>, p: nat): set<Report> { set r | r in running && r.proposalId == p }

  ghost predicate CountsEach(running: map<Report, nat>, perProposal: map<nat, nat>, maxPerProposal: nat) {
    forall p :: At(perProposal, p) == |OfProposal(running, p)| <= maxPerProposal
  }

  /** Counters that count exactly the running checks, within both limits. */
  ghost predicate Counts(running: map<Report, nat>, perProposal: map<nat, nat>, total: nat, maxTotal: nat,
                         maxPerProposal: nat) {
    && total == |running| && total <= maxTotal
    && CountsEach(running, perProposal, maxPerProposal)
    && (forall p :: p in perProposal ==> perProposal[p] > 0)
    && Total(perProposal) == total
  }

  lemma StartOf(running: map<Report, nat>, r: Report, check: nat, p: nat)
    requires r !in running
    ensures |OfProposal(running[r := check], p)| == |OfProposal(running, p)| + (if p == r.proposalId then 1 else 0)
  {
    var before, after := OfProposal(running, p), OfProposal(running[r := check], p);
    if p == r.proposalId {
      assert after == before + {r};
    } else {
      assert after == before;
    }
  }

  lemma SettleOf(running: map<Report, nat>, r: Report, p: nat)
    requires r in running
    ensures |OfProposal(running - {r}, p)| == |OfProposal(running, p)| - (if p == r.proposalId then 1 else 0)
  {
    var before, after := OfProposal(running, p), OfProposal(running - {r}, p);
    if p == r.proposalId {
      assert after == before - {r};
    } else {
      assert after == before;
    }
  }

  lemma OneMore(running: map<Report, nat>, r: Report, check: nat)
    requires r !in running
    ensures |running[r := check]| == |running| + 1
  {
    assert running[r := check].Keys == running.Keys + {r};
  }

  /** Starting a check within the limits keeps the counters exact. */
  lemma {:induction false} StartKeeps(running: map<Report, nat>, perProposal: map<nat, nat>, total: nat, maxTotal: nat,
                                      maxPerProposal: nat, r: Report, check: nat)
    requires Counts(running, perProposal, total, maxTotal, maxPerProposal)
    requires r !in running && total < maxTotal && At(perProposal, r.proposalId) < maxPerProposal
    ensures Counts(running[r := check], perProposal[r.proposalId := At(perProposal, r.proposalId) + 1], total + 1,
                   maxTotal, maxPerProposal)
  {
    OneMore(running, r, check);
    StartTotal(perProposal, r.proposalId);
    StartEach(running, perProposal, maxPerProposal, r, check);
  }

  lemma StartTotal(perProposal: map<nat, nat>, p: nat)
    ensures Total(perProposal[p := At(perProposal, p) + 1]) == Total(perProposal) + 1
  {
    TotalUpdate(perProposal, p, At(perProposal, p) + 1);
  }

  lemma StartEach(running: map<Report, nat>, perProposal: map<nat, nat>, maxPerProposal: nat, r: Report, check: nat)
    requires CountsEach(running, perProposal, maxPerProposal) && r !in running
             && At(perProposal, r.proposalId) < maxPerProposal
    ensures CountsEach(running[r := check], perProposal[r.proposalId := At(perProposal, r.proposalId) + 1],
                       maxPerProposal)
  {
    var counters, after := perProposal[r.proposalId := At(perProposal, r.proposalId) + 1], running[r := check];
    forall p ensures At(counters, p) == |OfProposal(after, p)| <= maxPerProposal {
      var n := |OfProposal(running, p)|;
      assert At(perProposal, p) == n;
      StartOf(running, r, check, p);
      assert |OfProposal(after, p)| == n + (if p == r.proposalId then 1 else 0);
    }
  }

  /** Settling a check keeps the counters exact and drops a counter that reaches zero. */
  lemma {:induction false} SettleKeeps(running: map<Report, nat>, perProposal: map<nat, nat>, total: nat, maxTotal: nat,
                                       maxPerProposal: nat, r: Report)
    requires Counts(running, perProposal, total, maxTotal, maxPerProposal) && r in running
    ensures total > 0 && At(perProposal, r.proposalId) > 0
    ensures var left := At(perProposal, r.proposalId) - 1;
            Counts(running - {r}, if left > 0 then perProposal[r.proposalId := left] else perProposal - {r.proposalId},
                   total - 1, maxTotal, maxPerProposal)
  {
    OneLess(running, r);
    CountedPositive(running, perProposal, maxPerProposal, r);
    TotalUpdate(perProposal, r.proposalId, At(perProposal, r.proposalId) - 1);
    TotalRemove(perProposal, r.proposalId);
    SettleEach(running, perProposal, maxPerProposal, r);
  }

  lemma OneLess(running: map<Report, nat>, r: Report)
    requires r in running
    ensures |running - {r}| == |running| - 1
  {
    assert (running - {r}).Keys == running.Keys - {r};
  }

  lemma CountedPositive(running: map<Report, nat>, perProposal: map<nat, nat>, maxPerProposal: nat, r: Report)
    requires CountsEach(running, perProposal, maxPerProposal) && r in running
    ensures At(perProposal, r.proposalId) > 0
  {
    assert r in OfProposal(running, r.proposalId);
    assert At(perProposal, r.proposalId) == |OfProposal(running, r.proposalId)|;
  }

  lemma SettleEach(running: map<Report, nat>, perProposal: map<nat, nat>, maxPerProposal: nat, r: Report)
    requires CountsEach(running, perProposal, maxPerProposal) && r in running && At(perProposal, r.proposalId) > 0
    ensures var left := At(perProposal, r.proposalId) - 1;
            CountsEach(running - {r}, if left > 0 then perProposal[r.proposalId := left]
                       else perProposal - {r.proposalId}, maxPerProposal)
  {
    var left := At(perProposal, r.proposalId) - 1;
    var counters := if left > 0 then perProposal[r.proposalId := left] else perProposal - {r.proposalId};
    forall p ensures At(counters, p) == |OfProposal(running - {r}, p)| <= maxPerProposal {
      SettleOf(running, r, p);
      assert At(perProposal, p) == |OfProposal(running, p)|;
    }
  }

  /** Once nothing runs, every counter is gone. */
  lemma {:induction false} IdleIsZero(running: map<Report, nat>, perProposal: map<nat, nat>, total: nat, maxTotal: nat,
                                      maxPerProposal: nat)
    requires Counts(running, perProposal, total, maxTotal, maxPerProposal) && running == map[]
    ensures total == 0 && perProposal == map[]
  {
    forall p ensures p !in perProposal {
      assert OfProposal(running, p) == {};
      assert At(perProposal, p) == 0;
    }
  }

  class SubmissionCheckLimiter {
    const maxTotal: nat
    const maxPerProposal: nat
    /** The check in flight for each report. */
    var running: map<Report, nat>
    var perProposal: map<nat, nat>
    var total: nat
    var nextCheck: nat

    ghost predicate Valid()
      reads this
    {
      && Counts(running, perProposal, total, maxTotal, maxPerProposal)
      && (forall r :: r in running ==> running[r] < nextCheck)
      && (forall r, s :: r in running && s in running && running[r] == running[s] ==> r == s)
    }

    constructor (maxTotal: nat, maxPerProposal: nat)
      ensures Valid() && running == map[] && this.maxTotal == maxTotal && this.maxPerProposal == maxPerProposal
    {
      this.maxTotal, this.maxPerProposal := maxTotal, maxPerProposal;
      running, perProposal, total, nextCheck := map[], map[], 0, 0;
      new;
      assert forall p :: OfProposal(running, p) == {};
    }

    /** Shares a running check of the same report, else starts one unless a limit refuses it. */
    method Run(r: Report) returns (o: Outcome)
      requires Valid()
      modifies this
      ensures Valid()
      ensures o.Shared? <==> r in old(running)
      ensures o.Shared? ==> o.check == old(running)[r]
      ensures o.Started?
              <==> r !in old(running) && |old(running)| < maxTotal
                   && |OfProposal(old(running), r.proposalId)| < maxPerProposal
      ensures running == if o.Started? then old(running)[r := o.check] else old(running)
      ensures o.Started? ==> forall s :: s in old(running) ==> old(running)[s] != o.check
    {
      if r in running { return Shared(running[r]); }
      var forProposal := if r.proposalId in perProposal then perProposal[r.proposalId] else 0;
      assert At(perProposal, r.proposalId) == forProposal;
      if total >= maxTotal || forProposal >= maxPerProposal { return Refused; }
      StartKeeps(running, perProposal, total, maxTotal, maxPerProposal, r, nextCheck);
      total := total + 1;
      perProposal := perProposal[r.proposalId := forProposal + 1];
      running := running[r := nextCheck];
      o := Started(nextCheck);
      nextCheck := nextCheck + 1;
    }

    /** The check of a report settles, whatever its result. */
    method Settle(r: Report)
      requires Valid() && r in running
      modifies this
      ensures Valid() && running == old(running) - {r}
    {
      SettleKeeps(running, perProposal, total, maxTotal, maxPerProposal, r);
      total := total - 1;
      var left := (if r.proposalId in perProposal then perProposal[r.proposalId] else 1) - 1;
      if left > 0 {
        perProposal := perProposal[r.proposalId := left];
      } else {
        perProposal := perProposal - {r.proposalId};
      }
      running := running - {r};
    }

    method InFlight() returns (n: nat)
      requires Valid()
      ensures n == |running|
    {
      n := total;
    }
  }
}
