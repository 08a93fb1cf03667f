/**
 Where a stored outcome comes from: the result of a succeeded job is what a call
 of `Process` returned for a delivery of that job, and so is the error of a failed
 one that was started.
 */
module Provenance {
  import opened Wrappers
  import opened Jobs
  import opened Protocol
  import opened Invariants

  /** The record holds exactly this outcome. */
  predicate Stores(job: Job, outcome: Result<Reply, string>) {
    match outcome
    case Ok(reply) => job.status == Succeeded && job.result == Some(reply) && job.error == ""
    case Err(message) => job.status == Failed && job.result == None && job.error == message
  }

  /** The step returns `outcome` from `Process` to a delivery of `id`. */
  predicate IsReturn(s: State, a: Action, id: JobId, outcome: Result<Reply, string>) {
    a.ReturnProcess? && IsBusy(s, a.w) && s.workers[a.w].job == id && a.outcome == outcome
  }

  ghost predicate Returned(r: Run, k: nat, id: JobId, outcome: Result<Reply, string>)
    requires |r.states| == |r.actions| + 1
  {
    exists i :: 0 <= i < k && i < |r.actions| && IsReturn(r.states[i], r.actions[i], id, outcome)
  }

  lemma ReturnedMore(r: Run, k: nat, id: JobId, outcome: Result<Reply, string>)
    requires |r.states| == |r.actions| + 1 && k < |r.actions|
    ensures Returned(r, k + 1, id, outcome) <==>
      Returned(r, k, id, outcome) || IsReturn(r.states[k], r.actions[k], id, outcome)
  {
  }

  /** What a worker is about to write was returned to it. */
  lemma {:induction false} Carried(c: Config, r: Run, k: nat, w: WorkerId)
    requires IsRun(c, r) && k < |r.states| && IsBusy(r.states[k], w) && r.states[k].workers[w].pc.Processed?
    ensures Returned(r, k, r.states[k].workers[w].job, r.states[k].workers[w].pc.outcome)
  {
    var s, a, t := r.states[k - 1], r.actions[k - 1], r.states[k];
    ReturnedMore(r, k - 1, t.workers[w].job, t.workers[w].pc.outcome);
    CarriedFrom(c, s, a, w);
    if !IsReturn(s, a, t.workers[w].job, t.workers[w].pc.outcome) {
      Carried(c, r, k - 1, w);
    }
  }

  lemma CarriedFrom(c: Config, s: State, a: Action, w: WorkerId)
    requires Enabled(c, s, a) && IsBusy(Next(c, s, a), w) && Next(c, s, a).workers[w].pc.Processed?
    ensures IsReturn(s, a, Next(c, s, a).workers[w].job, Next(c, s, a).workers[w].pc.outcome)
         || (IsBusy(s, w) && s.workers[w] == Next(c, s, a).workers[w])
  {
  }

  /** The ways a record comes to be what it is after a step. */
  lemma HowWritten(c: Config, s: State, a: Action, id: JobId)
    requires Enabled(c, s, a) && id in Next(c, s, a).jobs
    ensures var job := Next(c, s, a).jobs[id];
      || (id in s.jobs && job == s.jobs[id])
      || (a.CreateJob? && job.status == Queued)
      || (a.Mark? && job.status == Running)
      || (a.Persist? && s.workers[a.w].job == id && Stores(job, s.workers[a.w].pc.outcome))
      || (a.Compensate? && a.id == id && id in s.jobs && job.status == Failed && job.result == None
          && job.error == "job queue unavailable" && job.startedAt == s.jobs[id].startedAt)
  {
  }

  ghost predicate Sourced(r: Run, k: nat, id: JobId, job: Job)
    requires |r.states| == |r.actions| + 1
  {
    && (job.status == Succeeded ==> job.result.Some? && job.error == "" && Returned(r, k, id, Ok(job.result.value)))
    && (job.status == Failed ==> job.result.None?)
    && (job.status == Failed && job.error != "job queue unavailable" ==> Returned(r, k, id, Err(job.error)))
  }

  lemma SourcedMore(r: Run, k: nat, id: JobId, job: Job)
    requires |r.states| == |r.actions| + 1 && k < |r.actions| && Sourced(r, k, id, job)
    ensures Sourced(r, k + 1, id, job)
  {
    if job.status == Succeeded {
      ReturnedMore(r, k, id, Ok(job.result.value));
    }
    ReturnedMore(r, k, id, Err(job.error));
  }

  /**
   With no hypothesis, in every state of every run: the result of a succeeded record was returned by `Process` to a
   delivery of that job, and the error of a failed one too, unless it is that of the compensation.
   */
  lemma {:induction false} OutcomeWasReturned(c: Config, r: Run, k: nat, id: JobId)
    requires IsRun(c, r) && k < |r.states| && id in r.states[k].jobs
    ensures Sourced(r, k, id, r.states[k].jobs[id])
  {
    if k > 0 {
      var s, a, job := r.states[k - 1], r.actions[k - 1], r.states[k].jobs[id];
      HowWritten(c, s, a, id);
      if id in s.jobs && job == s.jobs[id] {
        OutcomeWasReturned(c, r, k - 1, id);
        SourcedMore(r, k - 1, id, job);
      } else if a.Persist? {
        Carried(c, r, k - 1, a.w);
        ReturnedMore(r, k - 1, id, s.workers[a.w].pc.outcome);
      }
    }
  }

  /** Under both hypotheses the compensation never touches a started job: its error is always a returned one. */
  lemma {:induction false} StartedFailureWasReturned(c: Config, r: Run, k: nat, id: JobId)
    requires Disciplined(c) && IsRun(c, r) && k < |r.states| && id in r.states[k].jobs
    requires r.states[k].jobs[id].status == Failed && r.states[k].jobs[id].startedAt.Some?
    ensures Returned(r, k, id, Err(r.states[k].jobs[id].error))
  {
    var s, a, job := r.states[k - 1], r.actions[k - 1], r.states[k].jobs[id];
    HowWritten(c, s, a, id);
    InvAlong(c, r, k - 1);
    ReturnedMore(r, k - 1, id, Err(job.error));
    if id in s.jobs && job == s.jobs[id] {
      StartedFailureWasReturned(c, r, k - 1, id);
    } else if a.Persist? {
      Carried(c, r, k - 1, a.w);
    }
  }
}
