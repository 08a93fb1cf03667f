/**
 Under which hypothesis each guarantee holds: exactly when workers respect their
 leases, or exactly when, besides, a failed Enqueue leaves no row. A lease lasts
 for some time, as the backends make sure.
 */
module Exactness {
  import opened Wrappers
  import opened Jobs
  import opened Protocol
  import opened Invariants
  import opened Accounting
  import opened Guarantees
  import W = Witnesses

  // ---------- Respected leases ----------

  /** Live workers never share a job, and each holds the row of its own. */
  ghost predicate Exclusive(c: Config) {
    forall s, w, v :: Reachable(c, s) && Live(s, w) && Live(s, v) ==>
      HoldsRow(s, w) && (s.workers[w].job == s.workers[v].job ==> w == v)
  }

  lemma ExclusiveExactly(c: Config)
    requires c.lease > 0
    ensures Exclusive(c) <==> c.leaseRespected
  {
    if c.leaseRespected {
      forall s, w, v | Reachable(c, s) && Live(s, w) && Live(s, v)
        ensures HoldsRow(s, w) && (s.workers[w].job == s.workers[v].job ==> w == v)
      {
        var r :| IsRun(c, r) && r.states[|r.actions|] == s;
        TimelyReleases(c, r);
        LeaseExclusion(c, r, |r.actions|, w, v);
      }
    } else {
      var s := W.StaleWorkerShares(c);
      assert Live(s, 0) && Live(s, 1);
    }
  }

  ghost predicate LosesNothing(c: Config) {
    forall s, id :: Reachable(c, s) && id in s.history.accepted && !Finished(s, id) ==> id in s.queue
  }

  lemma NoLossExactly(c: Config)
    requires c.lease > 0
    ensures LosesNothing(c) <==> c.leaseRespected
  {
    if c.leaseRespected {
      forall s, id | Reachable(c, s) && id in s.history.accepted && !Finished(s, id) ensures id in s.queue {
        var r :| IsRun(c, r) && r.states[|r.actions|] == s;
        NoAcceptedJobLost(c, r, |r.actions|, id);
      }
    } else {
      var s := W.StaleWorkerLosesJob(c);
      assert !Finished(s, W.ID);
    }
  }

  ghost predicate CallsBounded(c: Config) {
    forall r, id :: IsRun(c, r) ==> CallCount(r, id, |r.actions|) <= |EndedUnwritten(r.states[|r.actions|], id)| + 1
  }

  lemma CallsExactly(c: Config)
    requires c.lease > 0
    ensures CallsBounded(c) <==> c.leaseRespected
  {
    if c.leaseRespected {
      forall r, id | IsRun(c, r)
        ensures CallCount(r, id, |r.actions|) <= |EndedUnwritten(r.states[|r.actions|], id)| + 1
      {
        InferenceAccounting(c, r, id);
      }
    } else {
      var s, a := W.StaleWorkerOverwrites(c);
      var t := Next(c, s, a);
      var r :| IsRun(c, r) && r.states[|r.actions|] == t;
      TwoCallsNoneLost(c, r);
    }
  }

  lemma TwoCallsNoneLost(c: Config, r: Run)
    requires IsRun(c, r) && W.CalledTwice(c, r.states[|r.actions|])
    ensures CallCount(r, W.ID, |r.actions|) > |EndedUnwritten(r.states[|r.actions|], W.ID)| + 1
  {
    var s := r.states[|r.actions|];
    CountIsCalls(c, r, W.ID, |r.actions|);
    assert EndedUnwritten(s, W.ID) == {};
    var rest := CalledFor(s, W.ID) - {Call(W.ID, 0)};
    assert Call(W.ID, 1) in rest;
    assert |CalledFor(s, W.ID)| == |rest| + 1;
  }

  // ---------- Respected leases and clean failures ----------

  /** The step changes no terminal record, except that it may delete it. */
  ghost predicate KeepsTerminal(c: Config, s: State, a: Action)
    requires Enabled(c, s, a)
  {
    var t := Next(c, s, a);
    forall id :: id in s.jobs && Terminal(s.jobs[id].status) && id in t.jobs ==> t.jobs[id] == s.jobs[id]
  }

  ghost predicate TerminalKept(c: Config) {
    forall s, a :: Reachable(c, s) && Enabled(c, s, a) ==> KeepsTerminal(c, s, a)
  }

  lemma TerminalExactly(c: Config)
    requires c.lease > 0
    ensures TerminalKept(c) <==> c.leaseRespected && c.enqueueClean
  {
    if c.leaseRespected && c.enqueueClean {
      forall s, a | Reachable(c, s) && Enabled(c, s, a) ensures KeepsTerminal(c, s, a) {
        StepKeepsTerminal(c, s, a);
      }
    } else if !c.leaseRespected {
      var s, a := W.StaleWorkerOverwrites(c);
      assert !KeepsTerminal(c, s, a);
    } else {
      var s, a := W.LeftoverRowOverwrites(c);
      assert !KeepsTerminal(c, s, a);
    }
  }

  lemma StepKeepsTerminal(c: Config, s: State, a: Action)
    requires Disciplined(c) && Reachable(c, s) && Enabled(c, s, a)
    ensures KeepsTerminal(c, s, a)
  {
    var r :| IsRun(c, r) && r.states[|r.actions|] == s;
    InvAlong(c, r, |r.actions|);
    forall id | id in s.jobs && Terminal(s.jobs[id].status) && id in Next(c, s, a).jobs
      ensures Next(c, s, a).jobs[id] == s.jobs[id]
    {
      RewriteStep(c, s, a, id);
    }
  }

  ghost predicate AlwaysCoherent(c: Config) {
    forall s, id :: Reachable(c, s) && id in s.jobs ==> Coherent(s.jobs[id])
  }

  lemma CoherentExactly(c: Config)
    requires c.lease > 0
    ensures AlwaysCoherent(c) <==> c.leaseRespected && c.enqueueClean
  {
    if c.leaseRespected && c.enqueueClean {
      forall s, id | Reachable(c, s) && id in s.jobs ensures Coherent(s.jobs[id]) {
        var r :| IsRun(c, r) && r.states[|r.actions|] == s;
        RecordCoherence(c, r, |r.actions|, id);
      }
    } else if !c.leaseRespected {
      var s := W.StaleWorkerLosesJob(c);
      assert !Coherent(s.jobs[W.ID]);
    } else {
      var s := W.LeftoverRowRevives(c);
      assert !Coherent(s.jobs[W.ID]);
    }
  }
}
