/**
 How often `Process` is called for a job, counted along a run.
 */
module Accounting {
  import opened Wrappers
  import opened Jobs
  import opened Protocol
  import opened Invariants

  /** The calls of `Process` for `id` among the first `k` steps of a run. */
  ghost function CallCount(r: Run, id: JobId, k: nat): nat
    requires |r.states| == |r.actions| + 1 && k <= |r.actions|
  {
    if k == 0 then 0 else
      CallCount(r, id, k - 1) + if CallsFor(r.states[k - 1], r.actions[k - 1], id) then 1 else 0
  }

  predicate CallsFor(s: State, a: Action, id: JobId) {
    a.CallProcess? && IsBusy(s, a.w) && s.workers[a.w].job == id
  }

  ghost function CalledFor(s: State, id: JobId): set<Call> {
    set call | call in s.history.called && call.job == id
  }

  /**
   The deliveries of `id` that ended after calling `Process` and without a
   terminal write: they crashed, their write failed without effect, or their
   lease ran out under them.
   */
  ghost function EndedUnwritten(s: State, id: JobId): set<Call> {
    set call | call in CalledFor(s, id) && (call in s.history.lost || RanOut(s, call))
  }

  ghost predicate RanOut(s: State, call: Call) {
    exists w :: Holds(s, w, call) && !Live(s, w)
  }

  lemma {:induction false} CountIsCalls(c: Config, r: Run, id: JobId, k: nat)
    requires IsRun(c, r) && k <= |r.actions|
    ensures CallCount(r, id, k) == |CalledFor(r.states[k], id)|
  {
    if k > 0 {
      CountIsCalls(c, r, id, k - 1);
      DeliveriesAlong(c, r, k - 1);
      CallStep(c, r.states[k - 1], r.actions[k - 1], id);
    } else {
      assert CalledFor(r.states[0], id) == {};
    }
  }

  lemma CallStep(c: Config, s: State, a: Action, id: JobId)
    requires Deliveries(s) && Enabled(c, s, a)
    ensures |CalledFor(Next(c, s, a), id)| == |CalledFor(s, id)| + if CallsFor(s, a, id) then 1 else 0
  {
    var t := Next(c, s, a);
    if CallsFor(s, a, id) {
      assert CallRecorded(s.workers[a.w], s.history.called);
      assert CalledFor(t, id) == CalledFor(s, id) + {CallOf(s.workers[a.w])};
    } else {
      assert CalledFor(t, id) == CalledFor(s, id);
    }
  }

  /** Two calls for one job that did not end unwritten are the same call. */
  lemma AtMostOneGood(s: State, x: Call, y: Call)
    requires Deliveries(s) && Leases(s) && Settled(s)
    requires x in CalledFor(s, x.job) - EndedUnwritten(s, x.job)
    requires y in CalledFor(s, y.job) - EndedUnwritten(s, y.job)
    requires x.job == y.job
    ensures x == y
  {
    if x !in s.history.settled {
      StillHeld(s, x);
    }
    if y !in s.history.settled {
      StillHeld(s, y);
    }
  }

  lemma StillHeld(s: State, call: Call)
    requires Deliveries(s) && call in CalledFor(s, call.job) - EndedUnwritten(s, call.job)
    requires call !in s.history.settled
    ensures exists w :: Holds(s, w, call) && Live(s, w)
  {
    var w :| Holds(s, w, call);
    assert Live(s, w);
  }

  lemma AtMostOneMore<T>(all: set<T>, some: set<T>)
    requires some <= all
    requires forall x, y :: x in all - some && y in all - some ==> x == y
    ensures |all| <= |some| + 1
  {
    var rest := all - some;
    assert |all| == |some| + |rest| by {
      assert all == some + rest;
    }
    if rest != {} {
      var x :| x in rest;
      assert rest == {x};
    }
  }

  /** `Process` is called at most once more than deliveries ended without their terminal write. */
  lemma InferenceAccounting(c: Config, r: Run, id: JobId)
    requires Timely(c) && IsRun(c, r)
    ensures CallCount(r, id, |r.actions|) <= |EndedUnwritten(r.states[|r.actions|], id)| + 1
  {
    var s := r.states[|r.actions|];
    CountIsCalls(c, r, id, |r.actions|);
    CoreAlong(c, r, |r.actions|);
    forall x, y | x in CalledFor(s, id) - EndedUnwritten(s, id) && y in CalledFor(s, id) - EndedUnwritten(s, id)
      ensures x == y
    {
      AtMostOneGood(s, x, y);
    }
    AtMostOneMore(CalledFor(s, id), EndedUnwritten(s, id));
  }

  /** An operation that failed, or a worker that died. */
  predicate IsFault(a: Action) {
    match a
    case Load(_, ok) => !ok
    case Mark(_, _, effect) => effect != Done
    case Persist(_, _, effect) => effect != Done
    case Ack(_, applied) => !applied
    case Nack(_, applied) => !applied
    case Crash(_) => true
    case _ => false
  }

  /** No live worker loses its lease by this step. */
  ghost predicate NoLapse(s: State, t: State) {
    forall w :: Live(s, w) && IsBusy(t, w) ==> Live(t, w)
  }

  ghost predicate FaultFree(r: Run) {
    forall i {:trigger r.actions[i]} :: 0 <= i < |r.actions| && i + 1 < |r.states| ==>
      !IsFault(r.actions[i]) && NoLapse(r.states[i], r.states[i + 1])
  }

  ghost predicate Unharmed(s: State) {
    s.history.lost == {} && forall w :: IsBusy(s, w) ==> Live(s, w)
  }

  lemma UnharmedStep(c: Config, s: State, a: Action)
    requires c.lease > 0 && Unharmed(s) && Enabled(c, s, a) && !IsFault(a) && NoLapse(s, Next(c, s, a))
    ensures Unharmed(Next(c, s, a))
  {
    var t := Next(c, s, a);
    forall w | IsBusy(t, w) ensures Live(t, w) {
      assert (a.Receive? && a.w == w) || Live(s, w);
    }
  }

  lemma {:induction false} UnharmedAlong(c: Config, r: Run, k: nat)
    requires c.lease > 0 && IsRun(c, r) && FaultFree(r) && k < |r.states|
    ensures Unharmed(r.states[k])
  {
    if k > 0 {
      UnharmedAlong(c, r, k - 1);
      UnharmedStep(c, r.states[k - 1], r.actions[k - 1]);
    }
  }

  /** Where no lease runs out under a worker, leases are respected. */
  lemma FaultFreeIsTimely(c: Config, r: Run)
    requires c.lease > 0 && IsRun(c, r) && FaultFree(r)
    ensures IsRun(c.(leaseRespected := true), r)
  {
    var d := c.(leaseRespected := true);
    forall i {:trigger r.actions[i]} | 0 <= i < |r.actions|
      ensures Enabled(d, r.states[i], r.actions[i]) && r.states[i + 1] == Next(d, r.states[i], r.actions[i])
    {
      UnharmedAlong(c, r, i);
      SameUnderBoth(c, d, r.states[i], r.actions[i]);
    }
  }

  lemma SameUnderBoth(c: Config, d: Config, s: State, a: Action)
    requires d == c.(leaseRespected := true) && Unharmed(s) && Enabled(c, s, a)
    ensures Enabled(d, s, a) && Next(d, s, a) == Next(c, s, a)
  {
  }

  lemma FaultFreeCallsOnce(c: Config, r: Run, id: JobId)
    requires c.lease > 0 && IsRun(c, r) && FaultFree(r)
    ensures CallCount(r, id, |r.actions|) <= 1
  {
    FaultFreeIsTimely(c, r);
    InferenceAccounting(c.(leaseRespected := true), r, id);
    UnharmedAlong(c, r, |r.actions|);
    assert EndedUnwritten(r.states[|r.actions|], id) == {};
  }
}
