/**
 A job that could not be enqueued. The handler means to mark it failed but drops
 the error of that update: the job is marked exactly when the update took effect,
 and otherwise stays queued, without a row, for as long as it is stored.
 */
module Compensation {
  import opened Wrappers
  import opened Jobs
  import opened Protocol
  import opened Invariants
  import W = Witnesses

  /** A compensation for `id` took effect among the first `k` steps. */
  ghost predicate Compensated(r: Run, k: nat, id: JobId) {
    exists i :: 0 <= i < k && i < |r.actions| && IsCompensation(r.actions[i], id)
  }

  predicate IsCompensation(a: Action, id: JobId) {
    a.Compensate? && a.id == id && Applied(a.effect)
  }

  /** A job that was never enqueued is written by nobody but the handler that rejects it. */
  lemma NeverEnqueuedStep(c: Config, s: State, a: Action, id: JobId)
    requires Ids(s) && Enabled(c, s, a) && id !in Next(c, s, a).history.enqueued && id in Next(c, s, a).jobs
    ensures id !in s.history.enqueued
    ensures Next(c, s, a).jobs[id].status == (if IsCompensation(a, id) then Failed
                                              else if id in s.jobs then s.jobs[id].status else Queued)
  {
  }

  /** With no hypothesis: such a job is failed exactly when its compensation took effect, and queued otherwise. */
  lemma {:induction false} MarkedExactly(c: Config, r: Run, k: nat, id: JobId)
    requires IsRun(c, r) && k < |r.states|
    requires id in r.states[k].jobs && id !in r.states[k].history.enqueued
    ensures r.states[k].jobs[id].status == Failed <==> Compensated(r, k, id)
    ensures r.states[k].jobs[id].status == Queued <==> !Compensated(r, k, id)
  {
    if k > 0 {
      var s, a := r.states[k - 1], r.actions[k - 1];
      DeliveriesAlong(c, r, k - 1);
      NeverEnqueuedStep(c, s, a, id);
      CompensatedMore(r, k - 1, id);
      if id in s.jobs {
        MarkedExactly(c, r, k - 1, id);
      } else {
        StoredFresh(c, s, a, id);
        if Compensated(r, k - 1, id) {
          CompensatedWasUsed(c, r, k - 1, id);
        }
      }
    }
  }

  lemma CompensatedMore(r: Run, k: nat, id: JobId)
    requires k < |r.actions|
    ensures Compensated(r, k + 1, id) <==> Compensated(r, k, id) || IsCompensation(r.actions[k], id)
  {
  }

  lemma {:induction false} CompensatedWasUsed(c: Config, r: Run, k: nat, id: JobId)
    requires IsRun(c, r) && k < |r.states| && Compensated(r, k, id)
    ensures id in r.states[k].history.used
  {
    CompensatedMore(r, k - 1, id);
    DeliveriesAlong(c, r, k - 1);
    UsedStep(c, r.states[k - 1], r.actions[k - 1]);
    if Compensated(r, k - 1, id) {
      CompensatedWasUsed(c, r, k - 1, id);
    }
  }

  lemma UsedStep(c: Config, s: State, a: Action)
    requires QueuedIds(s) && Enabled(c, s, a)
    ensures s.history.used <= Next(c, s, a).history.used
    ensures a.Compensate? ==> a.id in Next(c, s, a).history.used
  {
  }

  /** An ID that appears in the store only now was not allocated before. */
  lemma StoredFresh(c: Config, s: State, a: Action, id: JobId)
    requires Enabled(c, s, a) && id !in s.jobs && id in Next(c, s, a).jobs
    ensures id !in s.history.used
  {
  }

  // ---------- When a failed Enqueue leaves no row ----------

  /** Until its handler has succeeded with it, a job was not enqueued. */
  ghost predicate Unqueued(s: State) {
    forall id :: id in s.posts && !s.posts[id].Enqueued? ==> id !in s.history.enqueued
  }

  lemma UnqueuedStep(c: Config, s: State, a: Action)
    requires c.enqueueClean && Ids(s) && Unqueued(s) && Enabled(c, s, a)
    ensures Unqueued(Next(c, s, a))
  {
  }

  lemma {:induction false} UnqueuedAlong(c: Config, r: Run, k: nat)
    requires c.enqueueClean && IsRun(c, r) && k < |r.states|
    ensures Unqueued(r.states[k])
  {
    if k > 0 {
      UnqueuedAlong(c, r, k - 1);
      DeliveriesAlong(c, r, k - 1);
      UnqueuedStep(c, r.states[k - 1], r.actions[k - 1]);
    }
  }

  /** The promise that a job that could not be enqueued is marked failed: kept exactly when the update takes effect. */
  lemma RejectionMarksExactly(c: Config, r: Run, i: nat)
    requires c.enqueueClean && IsRun(c, r) && i < |r.actions| && r.actions[i].Compensate?
    requires r.actions[i].id in r.states[i].jobs
    ensures r.actions[i].id in r.states[i + 1].jobs
    ensures r.states[i].jobs[r.actions[i].id].status == Queued
    ensures r.states[i + 1].jobs[r.actions[i].id].status == Failed <==> Applied(r.actions[i].effect)
  {
    UnqueuedAlong(c, r, i);
    WaitingAlong(c, r, i);
  }

  /** A job whose POST is still at work and that was not enqueued is queued. */
  ghost predicate Waiting(s: State) {
    forall id :: id in s.posts && id in s.jobs && id !in s.history.enqueued ==> s.jobs[id].status == Queued
  }

  lemma WaitingStep(c: Config, s: State, a: Action)
    requires Ids(s) && Waiting(s) && Enabled(c, s, a)
    ensures Waiting(Next(c, s, a))
  {
    var t := Next(c, s, a);
    forall id | id in t.posts && id in t.jobs && id !in t.history.enqueued ensures t.jobs[id].status == Queued {
      NeverEnqueuedStep(c, s, a, id);
    }
  }

  lemma {:induction false} WaitingAlong(c: Config, r: Run, k: nat)
    requires IsRun(c, r) && k < |r.states|
    ensures Waiting(r.states[k])
  {
    if k > 0 {
      WaitingAlong(c, r, k - 1);
      DeliveriesAlong(c, r, k - 1);
      WaitingStep(c, r.states[k - 1], r.actions[k - 1]);
    }
  }

  // ---------- Orphans ----------

  /** A job that no handler and no worker will ever come to: stored, if it is, as queued. */
  ghost predicate Orphan(s: State, id: JobId) {
    && id in s.history.used && id !in s.history.enqueued && id !in s.history.accepted && id !in s.posts
    && (id in s.jobs ==> s.jobs[id].status == Queued)
  }

  lemma OrphanStep(c: Config, s: State, a: Action, id: JobId)
    requires Ids(s) && Orphan(s, id) && Enabled(c, s, a)
    ensures Orphan(Next(c, s, a), id)
  {
  }

  /** With no hypothesis: an orphan stays one, without a row, in every later state of the run. */
  lemma {:induction false} OrphanStays(c: Config, r: Run, i: nat, k: nat, id: JobId)
    requires IsRun(c, r) && i <= k < |r.states| && Orphan(r.states[i], id)
    ensures Orphan(r.states[k], id) && id !in r.states[k].queue
  {
    DeliveriesAlong(c, r, k);
    if i < k {
      OrphanStays(c, r, i, k - 1, id);
      DeliveriesAlong(c, r, k - 1);
      OrphanStep(c, r.states[k - 1], r.actions[k - 1], id);
    }
  }

  /** Whatever the configuration: an Enqueue that fails and an update that fails after it leave a stored orphan. */
  lemma RejectionLeavesOrphan(c: Config) returns (s: State)
    ensures Reachable(c, s) && Orphan(s, W.ID) && W.ID in s.jobs
  {
    W.ReachStart(c);
    var a0 := CreateJob(W.ID, "a", W.TASK, 0, 5, Done);
    W.ReachNext(c, W.START, a0);
    var s1 := Next(c, W.START, a0);
    W.ReachNext(c, s1, EnqueueJob(W.ID, FailedUnapplied));
    var s2 := Next(c, s1, EnqueueJob(W.ID, FailedUnapplied));
    W.ReachNext(c, s2, Compensate(W.ID, 0, FailedUnapplied));
    s := Next(c, s2, Compensate(W.ID, 0, FailedUnapplied));
  }
}
