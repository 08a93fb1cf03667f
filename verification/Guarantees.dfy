/**
 The promises of the job protocol, over every state of every run: exclusive
 leases when no late Ack or Nack takes effect; no lost job when workers respect
 their leases; statuses that only move forward and coherent records when, besides,
 a failed Enqueue leaves no row.
 */
module Guarantees {
  import opened Wrappers
  import opened Jobs
  import opened Protocol
  import opened Invariants

  // ---------- Exclusion ----------

  /** All that exclusion needs: no Ack or Nack of a worker whose lease has run out takes effect. */
  lemma LeaseExclusion(c: Config, r: Run, k: nat, w: WorkerId, v: WorkerId)
    requires c.lease > 0 && IsRun(c, r) && NoLateRelease(r) && k < |r.states|
    requires Live(r.states[k], w) && Live(r.states[k], v)
    ensures r.states[k].workers[w].job == r.states[k].workers[v].job ==> w == v
    ensures r.states[k].workers[w].job in r.states[k].queue
    ensures r.states[k].queue[r.states[k].workers[w].job].lease == Some(r.states[k].workers[w].deadline)
  {
    LeasesAlong(c, r, k);
    assert HoldsRow(r.states[k], w);
  }

  // ---------- No accepted job is lost ----------

  lemma NoAcceptedJobLost(c: Config, r: Run, k: nat, id: JobId)
    requires Timely(c) && IsRun(c, r) && k < |r.states|
    requires id in r.states[k].history.accepted && !Finished(r.states[k], id)
    ensures id in r.states[k].queue
  {
    CoreAlong(c, r, k);
  }

  /** `w` is inside the delivery `d`, and the job of that delivery is finished. */
  ghost predicate SawFinish(s: State, w: WorkerId, d: nat, id: JobId) {
    IsBusy(s, w) && s.workers[w].delivery == d && s.workers[w].job == id && Finished(s, id)
  }

  lemma {:induction false} AckingSawFinish(c: Config, r: Run, k: nat, w: WorkerId) returns (i: nat)
    requires IsRun(c, r) && k < |r.states|
    requires IsBusy(r.states[k], w) && r.states[k].workers[w].pc.Acking?
    ensures i <= k && SawFinish(r.states[i], w, r.states[k].workers[w].delivery, r.states[k].workers[w].job)
  {
    var s, a := r.states[k - 1], r.actions[k - 1];
    if a.Load? && a.w == w {
      i := k - 1;
    } else if a.Persist? && a.w == w {
      i := k;
    } else {
      i := AckingSawFinish(c, r, k - 1, w);
    }
  }

  /** Whatever the timing: a delivery is acknowledged only after a moment within it when its job was done. */
  lemma AckFollowsFinish(c: Config, r: Run, k: nat)
    requires IsRun(c, r) && k < |r.actions| && r.actions[k].Ack?
    ensures exists i :: 0 <= i <= k && SawFinish(r.states[i], r.actions[k].w,
      r.states[k].workers[r.actions[k].w].delivery, r.states[k].workers[r.actions[k].w].job)
  {
    var i := AckingSawFinish(c, r, k, r.actions[k].w);
  }

  // ---------- Statuses only move forward ----------

  function Rank(status: Status): nat {
    match status
    case Queued => 0
    case Running => 1
    case Succeeded => 2
    case Failed => 2
  }

  ghost predicate Forward(before: Job, after: Job) {
    && Rank(before.status) <= Rank(after.status)
    && (Terminal(before.status) ==> after == before)
    && (before.startedAt.Some? ==> after.startedAt == before.startedAt)
    && (after.id, after.owner, after.request, after.createdAt, after.expiresAt)
       == (before.id, before.owner, before.request, before.createdAt, before.expiresAt)
  }

  lemma RewrittenForward(before: Job, after: Job)
    requires Coherent(before) && Rewritten(before, after)
    ensures Forward(before, after)
  {
  }

  /** One step of a run: forward, and a queued job fails only by the handler's compensation. */
  lemma ForwardStep(c: Config, r: Run, i: nat, id: JobId)
    requires Disciplined(c) && IsRun(c, r) && i < |r.actions|
    requires id in r.states[i].jobs && id in r.states[i + 1].jobs
    ensures Forward(r.states[i].jobs[id], r.states[i + 1].jobs[id])
    ensures r.states[i].jobs[id].status == Queued && r.states[i + 1].jobs[id].status != Queued ==>
      r.states[i + 1].jobs[id].status == (if r.actions[i].Compensate? then Failed else Running)
  {
    InvAlong(c, r, i);
    RewriteStep(c, r.states[i], r.actions[i], id);
    RewrittenForward(r.states[i].jobs[id], r.states[i + 1].jobs[id]);
  }

  /** IDs are never reused, so a stored record has been there ever since it was seen. */
  lemma {:induction false} StaysStored(c: Config, r: Run, i: nat, k: nat, id: JobId)
    requires IsRun(c, r) && i <= k < |r.states|
    requires id in r.states[i].history.used
    ensures id in r.states[k].history.used
    ensures id in r.states[k].jobs ==> forall j :: i <= j < k ==> id in r.states[j].jobs
  {
    if i < k {
      StaysStored(c, r, i, k - 1, id);
      AbsentStaysAbsent(c, r.states[k - 1], r.actions[k - 1], id);
    }
  }

  lemma AbsentStaysAbsent(c: Config, s: State, a: Action, id: JobId)
    requires Enabled(c, s, a) && id in s.history.used
    ensures id in Next(c, s, a).history.used
    ensures id in Next(c, s, a).jobs ==> id in s.jobs
  {
  }

  lemma {:induction false} StatusForward(c: Config, r: Run, i: nat, k: nat, id: JobId)
    requires Disciplined(c) && IsRun(c, r) && i <= k < |r.states|
    requires id in r.states[i].jobs && id in r.states[k].jobs
    ensures Forward(r.states[i].jobs[id], r.states[k].jobs[id])
  {
    if i < k {
      DeliveriesAlong(c, r, i);
      StaysStored(c, r, i, k, id);
      ForwardStep(c, r, k - 1, id);
      StatusForward(c, r, i, k - 1, id);
    }
  }

  /** A job that is terminal or deleted is so in every later state of the run. */
  lemma {:induction false} FinishedStays(c: Config, r: Run, i: nat, k: nat, id: JobId)
    requires Disciplined(c) && IsRun(c, r) && i <= k < |r.states|
    requires id in r.states[i].history.used && Finished(r.states[i], id)
    ensures id in r.states[k].history.used && Finished(r.states[k], id)
  {
    if i < k {
      FinishedStays(c, r, i, k - 1, id);
      InvAlong(c, r, k - 1);
      FinishedStep(c, r.states[k - 1], r.actions[k - 1], id);
    }
  }

  // ---------- Record coherence ----------

  lemma RecordCoherence(c: Config, r: Run, k: nat, id: JobId)
    requires Disciplined(c) && IsRun(c, r) && k < |r.states| && id in r.states[k].jobs
    ensures Coherent(r.states[k].jobs[id]) && r.states[k].jobs[id].updatedAt <= r.states[k].now
  {
    InvAlong(c, r, k);
  }
}
