/**
 What every step of the protocol keeps, as named parts of two inductive
 invariants. `Ids` and `Deliveries` need no hypothesis. With `Leases`, `Outcomes`
 and `Settled` they make up `Core`, which holds when workers respect their
 leases. `Statuses` and `Records` complete `Inv`, which also needs that a failed
 Enqueue leaves no row.
 */
module Invariants {
  import opened Wrappers
  import opened Jobs
  import opened Protocol
  import LeaseTable

  // ---------- IDs ----------

  ghost predicate Ids(s: State) {
    StoredIds(s) && QueuedIds(s)
  }

  /** Every stored record carries the ID it is stored under, and that ID was allocated. */
  ghost predicate StoredIds(s: State) {
    forall id :: id in s.jobs ==> id in s.history.used && s.jobs[id].id == id
  }

  /** Rows and deliveries are only for jobs that were enqueued. */
  ghost predicate QueuedIds(s: State) {
    var h := s.history;
    && (forall id :: id in s.queue ==> id in h.enqueued)
    && h.accepted <= h.enqueued <= h.used
    && (forall id :: id in s.posts ==> id in h.used && (s.posts[id].Enqueued? ==> id in h.enqueued))
    && (forall w :: IsBusy(s, w) ==> s.workers[w].job in h.enqueued)
  }

  lemma StoredIdsStep(c: Config, s: State, a: Action)
    requires StoredIds(s) && Enabled(c, s, a)
    ensures StoredIds(Next(c, s, a))
  {
  }

  lemma QueuedIdsStep(c: Config, s: State, a: Action)
    requires QueuedIds(s) && Enabled(c, s, a)
    ensures QueuedIds(Next(c, s, a))
  {
    var t := Next(c, s, a);
    forall w | IsBusy(t, w) ensures t.workers[w].job in t.history.enqueued {
      BusyIdStep(c, s, a, w);
    }
  }

  lemma BusyIdStep(c: Config, s: State, a: Action, w: WorkerId)
    requires QueuedIds(s) && Enabled(c, s, a) && IsBusy(Next(c, s, a), w)
    ensures Next(c, s, a).workers[w].job in Next(c, s, a).history.enqueued
  {
    assert (a.Receive? && a.w == w) || (IsBusy(s, w) && Next(c, s, a).workers[w].job == s.workers[w].job);
  }

  lemma IdsStep(c: Config, s: State, a: Action)
    requires Ids(s) && Enabled(c, s, a)
    ensures Ids(Next(c, s, a))
  {
    StoredIdsStep(c, s, a);
    QueuedIdsStep(c, s, a);
  }

  // ---------- Deliveries: no hypothesis needed ----------

  ghost predicate Accounted(s: State, call: Call) {
    call in s.history.lost || call in s.history.settled || exists w :: Holds(s, w, call)
  }

  /** The call of a delivery is recorded exactly from the moment it is made. */
  predicate CallRecorded(worker: Worker, called: set<Call>)
    requires worker.Busy?
  {
    && (worker.pc.Received? || worker.pc.Loaded? || worker.pc.Ready? ==> CallOf(worker) !in called)
    && (InProcess(worker.pc) ==> CallOf(worker) in called)
  }

  predicate Holds(s: State, w: WorkerId, call: Call) {
    IsBusy(s, w) && InProcess(s.workers[w].pc) && CallOf(s.workers[w]) == call
  }

  ghost predicate Distinct(s: State) {
    forall w, v :: IsBusy(s, w) && IsBusy(s, v) && s.workers[w].delivery == s.workers[v].delivery ==> w == v
  }

  ghost predicate Deliveries(s: State) {
    var h := s.history;
    && (forall w :: IsBusy(s, w) ==> s.workers[w].delivery < h.deliveries)
    && Distinct(s)
    && (forall call :: call in h.called ==> call.delivery < h.deliveries && Accounted(s, call))
    && (forall w :: IsBusy(s, w) ==> CallRecorded(s.workers[w], h.called))
    && h.lost <= h.called && h.settled <= h.called
  }

  lemma AccountedStep(c: Config, s: State, a: Action, call: Call)
    requires Deliveries(s) && Enabled(c, s, a) && call in Next(c, s, a).history.called
    ensures Accounted(Next(c, s, a), call)
  {
    var t := Next(c, s, a);
    if call !in s.history.called {
      assert Holds(t, a.w, call);
    } else if call !in s.history.lost && call !in s.history.settled {
      var w :| Holds(s, w, call);
      if call !in t.history.lost && call !in t.history.settled {
        assert Holds(t, w, call);
      }
    }
  }

  lemma CallRecordedStep(c: Config, s: State, a: Action, w: WorkerId)
    requires Deliveries(s) && Enabled(c, s, a) && IsBusy(Next(c, s, a), w)
    ensures CallRecorded(Next(c, s, a).workers[w], Next(c, s, a).history.called)
    ensures Next(c, s, a).workers[w].delivery < Next(c, s, a).history.deliveries
  {
    var t := Next(c, s, a);
    if a.Receive? && a.w == w {
      assert CallOf(t.workers[w]).delivery == s.history.deliveries;
    } else {
      assert IsBusy(s, w) && CallOf(t.workers[w]) == CallOf(s.workers[w]);
    }
  }

  lemma DistinctStep(c: Config, s: State, a: Action)
    requires Deliveries(s) && Enabled(c, s, a)
    ensures Distinct(Next(c, s, a))
  {
  }

  lemma DeliveriesStep(c: Config, s: State, a: Action)
    requires Deliveries(s) && Enabled(c, s, a)
    ensures Deliveries(Next(c, s, a))
  {
    var t := Next(c, s, a);
    forall call | call in t.history.called ensures Accounted(t, call) {
      AccountedStep(c, s, a, call);
    }
    DistinctStep(c, s, a);
    forall w | IsBusy(t, w)
      ensures CallRecorded(t.workers[w], t.history.called) && t.workers[w].delivery < t.history.deliveries
    {
      CallRecordedStep(c, s, a, w);
    }
  }

  // ---------- Leases ----------

  ghost predicate Leases(s: State) {
    && (forall w :: Live(s, w) ==> HoldsRow(s, w))
    && (forall w, v :: Live(s, w) && Live(s, v) && s.workers[w].job == s.workers[v].job ==> w == v)
    && (forall id :: id in s.posts && s.posts[id].Stored? ==> id !in s.history.enqueued)
  }

  /** The row of `w`'s job is there, and its lease is the one `w` was given. */
  predicate HoldsRow(s: State, w: WorkerId)
    requires IsBusy(s, w)
  {
    s.workers[w].job in s.queue && s.queue[s.workers[w].job].lease == Some(s.workers[w].deadline)
  }

  /** An Ack or a Nack takes effect only for a worker whose lease is running. */
  predicate Gentle(s: State, a: Action) {
    (a.Ack? || a.Nack?) && a.applied ==> Live(s, a.w)
  }

  lemma LeasesStep(c: Config, s: State, a: Action)
    requires c.lease > 0 && Gentle(s, a) && Ids(s) && Leases(s) && Enabled(c, s, a)
    ensures Leases(Next(c, s, a))
  {
    var t := Next(c, s, a);
    forall w | Live(t, w) ensures HoldsRow(t, w) {
      HoldsRowStep(c, s, a, w);
    }
    forall w, v | Live(t, w) && Live(t, v) && t.workers[w].job == t.workers[v].job ensures w == v {
      SoleHolderStep(c, s, a, w, v);
    }
  }

  lemma HoldsRowStep(c: Config, s: State, a: Action, w: WorkerId)
    requires c.lease > 0 && Gentle(s, a) && Ids(s) && Leases(s) && Enabled(c, s, a) && Live(Next(c, s, a), w)
    ensures HoldsRow(Next(c, s, a), w)
  {
    if a.Receive? {
      AvailableIsFree(s, a.id);
    }
    if !(a.Receive? && a.w == w) {
      assert Live(s, w) && HoldsRow(s, w);
    }
  }

  lemma SoleHolderStep(c: Config, s: State, a: Action, w: WorkerId, v: WorkerId)
    requires c.lease > 0 && Gentle(s, a) && Leases(s) && Enabled(c, s, a)
    requires Live(Next(c, s, a), w) && Live(Next(c, s, a), v)
    requires Next(c, s, a).workers[w].job == Next(c, s, a).workers[v].job
    ensures w == v
  {
    if a.Receive? {
      AvailableIsFree(s, a.id);
    }
  }

  /** A row that Receive may take is not held by any live worker. */
  lemma AvailableIsFree(s: State, id: JobId)
    requires Leases(s) && id in s.queue && LeaseTable.Available(s.queue[id], s.now)
    ensures forall w :: Live(s, w) ==> s.workers[w].job != id
  {
    forall w | Live(s, w) ensures s.workers[w].job != id {
      assert HoldsRow(s, w);
    }
  }

  // ---------- Outcomes ----------

  predicate Finished(s: State, id: JobId) {
    id !in s.jobs || Terminal(s.jobs[id].status)
  }

  /** Who is about to acknowledge holds a finished job, and a job that lost its row is finished. */
  ghost predicate Outcomes(s: State) {
    && (forall w :: Live(s, w) && s.workers[w].pc.Acking? ==> Finished(s, s.workers[w].job))
    && (forall id :: id in s.jobs && id in s.history.enqueued && id !in s.queue ==> Terminal(s.jobs[id].status))
  }

  lemma AckingStep(c: Config, s: State, a: Action, w: WorkerId)
    requires Timely(c) && Ids(s) && Leases(s) && Outcomes(s) && Enabled(c, s, a)
    requires Live(Next(c, s, a), w) && Next(c, s, a).workers[w].pc.Acking?
    ensures Finished(Next(c, s, a), Next(c, s, a).workers[w].job)
  {
    assert Live(s, w);
    if a.Load? || a.Persist? || a.Mark? {
      assert Live(s, a.w) && (a.w == w || s.workers[a.w].job != s.workers[w].job);
    } else {
      assert s.workers[w] == Next(c, s, a).workers[w];
    }
  }

  lemma WithoutRowStep(c: Config, s: State, a: Action, id: JobId)
    requires Timely(c) && Ids(s) && Leases(s) && Outcomes(s) && Enabled(c, s, a)
    requires id in Next(c, s, a).jobs && id in Next(c, s, a).history.enqueued && id !in Next(c, s, a).queue
    ensures Terminal(Next(c, s, a).jobs[id].status)
  {
    if a.Mark? || a.Persist? || a.Ack? {
      assert Live(s, a.w) && HoldsRow(s, a.w);
    }
    if id !in s.queue {
      assert id in s.jobs && id in s.history.enqueued;
    }
  }

  lemma OutcomesStep(c: Config, s: State, a: Action)
    requires Timely(c) && Ids(s) && Leases(s) && Outcomes(s) && Enabled(c, s, a)
    ensures Outcomes(Next(c, s, a))
  {
    var t := Next(c, s, a);
    forall w | Live(t, w) && t.workers[w].pc.Acking? ensures Finished(t, t.workers[w].job) {
      AckingStep(c, s, a, w);
    }
    forall id | id in t.jobs && id in t.history.enqueued && id !in t.queue ensures Terminal(t.jobs[id].status) {
      WithoutRowStep(c, s, a, id);
    }
  }

  predicate IsBusyAction(a: Action) {
    a.Load? || a.Mark? || a.CallProcess? || a.ReturnProcess? || a.Persist? || a.Ack? || a.Nack? || a.Crash?
  }

  predicate Acts(a: Action, w: WorkerId) {
    (IsBusyAction(a) || a.Receive?) && a.w == w
  }

  // ---------- Settled calls ----------

  predicate MayStillWrite(pc: Pc) {
    pc.Loaded? || pc.Ready? || InProcess(pc)
  }

  ghost predicate Settled(s: State) {
    var h := s.history;
    && (forall call :: call in h.settled ==> call.job in h.used && Finished(s, call.job))
    && (forall x, y :: x in h.settled && y in h.settled && x.job == y.job ==> x == y)
    && (forall call, w :: call in h.settled && Live(s, w) && MayStillWrite(s.workers[w].pc) ==>
          s.workers[w].job != call.job)
  }

  /** A settled job stays finished: nobody is left to write it. */
  lemma SettledFinishedStep(c: Config, s: State, a: Action, call: Call)
    requires Timely(c) && Settled(s) && Enabled(c, s, a) && call in s.history.settled
    ensures call.job in Next(c, s, a).history.used && Finished(Next(c, s, a), call.job)
  {
    if IsBusyAction(a) && IsBusy(s, a.w) {
      assert Live(s, a.w) || a.Crash?;
    }
  }

  lemma NewlySettled(c: Config, s: State, a: Action, call: Call)
    requires Timely(c) && Ids(s) && Leases(s) && Settled(s) && Enabled(c, s, a)
    requires call in Next(c, s, a).history.settled && call !in s.history.settled
    ensures a.Persist? && call == CallOf(s.workers[a.w]) && Finished(Next(c, s, a), call.job)
    ensures forall x :: x in s.history.settled ==> x.job != call.job
  {
    assert Live(s, a.w);
  }

  lemma SettledStep(c: Config, s: State, a: Action)
    requires Timely(c) && Ids(s) && Leases(s) && Settled(s) && Enabled(c, s, a)
    ensures Settled(Next(c, s, a))
  {
    var t := Next(c, s, a);
    forall call | call in t.history.settled ensures call.job in t.history.used && Finished(t, call.job) {
      if call in s.history.settled {
        SettledFinishedStep(c, s, a, call);
      } else {
        NewlySettled(c, s, a, call);
      }
    }
    forall call, w | call in t.history.settled && Live(t, w) && MayStillWrite(t.workers[w].pc)
      ensures t.workers[w].job != call.job
    {
      if call !in s.history.settled {
        NewlySettled(c, s, a, call);
      }
    }
    forall x, y | x in t.history.settled && y in t.history.settled && x.job == y.job ensures x == y {
      if x !in s.history.settled {
        NewlySettled(c, s, a, x);
      }
      if y !in s.history.settled {
        NewlySettled(c, s, a, y);
      }
    }
  }

  // ---------- Statuses ----------

  /** What a live worker knows about its job, as long as the job is stored. */
  predicate Knows(job: Job, pc: Pc) {
    match pc
    case Received => true
    case Loaded(snapshot, _) => job == snapshot && job.status == Queued
    case Ready => job.status == Running
    case Processing => job.status == Running
    case Processed(_, _) => job.status == Running
    case Acking => Terminal(job.status)
    case Nacking => true
  }

  ghost predicate Statuses(s: State) {
    && (forall w :: Live(s, w) && s.workers[w].job in s.jobs ==> Knows(s.jobs[s.workers[w].job], s.workers[w].pc))
    && (forall id :: id in s.posts && !s.posts[id].Enqueued? ==>
          id !in s.history.enqueued && (id in s.jobs ==> s.jobs[id].status == Queued))
  }

  /** While a worker is live nobody else writes its job; the record can only be deleted. */
  lemma HolderWritesAlone(c: Config, s: State, a: Action, w: WorkerId)
    requires Disciplined(c) && Ids(s) && Leases(s) && Statuses(s) && Enabled(c, s, a) && Live(s, w) && !Acts(a, w)
    ensures IsBusy(Next(c, s, a), w) && Next(c, s, a).workers[w] == s.workers[w]
    ensures s.workers[w].job in Next(c, s, a).jobs ==>
      s.workers[w].job in s.jobs && Next(c, s, a).jobs[s.workers[w].job] == s.jobs[s.workers[w].job]
  {
    OthersWriteElsewhere(c, s, a, w);
  }

  /** The job that another party writes is not the one a live worker holds. */
  lemma OthersWriteElsewhere(c: Config, s: State, a: Action, w: WorkerId)
    requires Disciplined(c) && Ids(s) && Leases(s) && Statuses(s) && Enabled(c, s, a) && Live(s, w) && !Acts(a, w)
    ensures a.Mark? || a.Persist? ==> s.workers[a.w].job != s.workers[w].job
    ensures a.CreateJob? || a.Compensate? ==> a.id != s.workers[w].job
  {
    if a.Mark? || a.Persist? {
      assert Live(s, a.w) && a.w != w;
    }
  }

  lemma KnowsStep(c: Config, s: State, a: Action, w: WorkerId)
    requires Disciplined(c) && Ids(s) && Leases(s) && Statuses(s) && Enabled(c, s, a)
    requires Live(Next(c, s, a), w) && Next(c, s, a).workers[w].job in Next(c, s, a).jobs
    ensures Knows(Next(c, s, a).jobs[Next(c, s, a).workers[w].job], Next(c, s, a).workers[w].pc)
  {
    if Acts(a, w) {
      KnowsOwn(c, s, a);
    } else {
      HolderWritesAlone(c, s, a, w);
    }
  }

  lemma KnowsOwn(c: Config, s: State, a: Action)
    requires Disciplined(c) && Statuses(s) && Enabled(c, s, a) && (IsBusyAction(a) || a.Receive?)
    requires var t := Next(c, s, a); Live(t, a.w) && t.workers[a.w].job in t.jobs
    ensures var t := Next(c, s, a); Knows(t.jobs[t.workers[a.w].job], t.workers[a.w].pc)
  {
    assert a.Receive? || Live(s, a.w);
  }

  lemma StatusesStep(c: Config, s: State, a: Action)
    requires Disciplined(c) && Ids(s) && Leases(s) && Statuses(s) && Enabled(c, s, a)
    ensures Statuses(Next(c, s, a))
  {
    var t := Next(c, s, a);
    forall w | Live(t, w) && t.workers[w].job in t.jobs
      ensures Knows(t.jobs[t.workers[w].job], t.workers[w].pc)
    {
      KnowsStep(c, s, a, w);
    }
  }

  /** A finished job stays finished: IDs are never reused. */
  lemma FinishedStep(c: Config, s: State, a: Action, id: JobId)
    requires Disciplined(c) && Ids(s) && Leases(s) && Statuses(s) && Enabled(c, s, a)
    requires id in s.history.used && Finished(s, id)
    ensures Finished(Next(c, s, a), id)
  {
    if IsBusyAction(a) && IsBusy(s, a.w) {
      assert Live(s, a.w) || a.Crash?;
    }
  }

  // ---------- Records ----------

  /** The fields that belong together, status by status. */
  predicate Coherent(job: Job) {
    && job.createdAt < job.expiresAt
    && match job.status
       case Queued =>
         job.result.None? && job.error == "" && job.startedAt.None? && job.completedAt.None?
         && job.updatedAt == job.createdAt
       case Running =>
         job.result.None? && job.error == "" && job.startedAt.Some? && job.completedAt.None?
         && job.createdAt <= job.startedAt.value == job.updatedAt
       case Succeeded =>
         job.result.Some? && job.error == "" && job.startedAt.Some? && job.completedAt.Some?
         && job.createdAt <= job.startedAt.value <= job.completedAt.value == job.updatedAt
       case Failed =>
         job.result.None? && job.completedAt.Some?
         && job.createdAt <= job.completedAt.value == job.updatedAt
         && (if job.startedAt.Some? then job.createdAt <= job.startedAt.value <= job.completedAt.value
             else job.error == "job queue unavailable")
  }

  ghost predicate Records(s: State) {
    && (forall id :: id in s.jobs ==> Coherent(s.jobs[id]) && s.jobs[id].updatedAt <= s.now)
    && (forall w :: Live(s, w) && s.workers[w].job in s.jobs ==> ReadAfter(s.jobs[s.workers[w].job], s.workers[w].pc))
    && (forall id :: id in s.posts && s.posts[id].Refused? && id in s.jobs ==> s.jobs[id].updatedAt <= s.posts[id].at)
  }

  /** An instant kept by a live worker was read after the last write of its job. */
  predicate ReadAfter(job: Job, pc: Pc) {
    (pc.Loaded? || pc.Processed?) ==> job.updatedAt <= pc.at
  }

  /** The four ways a stored record goes through a step. */
  ghost predicate Rewritten(before: Job, after: Job) {
    || after == before
    || (exists stamp :: before.updatedAt <= stamp && before.status == Queued
                        && after == Apply(before, MarkRunning(stamp)))
    || (exists stamp :: before.updatedAt <= stamp && before.status == Queued
                        && after == Apply(before, RejectUnqueued(stamp)))
    || (exists stamp, outcome :: before.updatedAt <= stamp && before.status == Running
                                 && after == Apply(before, Complete(outcome, stamp)))
  }

  lemma WritesCoherent(before: Job, after: Job)
    requires Coherent(before) && Rewritten(before, after)
    ensures Coherent(after)
  {
  }

  lemma RewriteStep(c: Config, s: State, a: Action, id: JobId)
    requires Disciplined(c) && Ids(s) && Statuses(s) && Records(s) && Enabled(c, s, a)
    requires id in s.jobs && id in Next(c, s, a).jobs
    ensures Rewritten(s.jobs[id], Next(c, s, a).jobs[id])
    ensures s.jobs[id].status == Queued && Next(c, s, a).jobs[id].status != Queued ==>
      Next(c, s, a).jobs[id].status == (if a.Compensate? then Failed else Running)
  {
    if a.Mark? || a.Persist? {
      RewriteByWorker(c, s, a, id);
    } else if a.Compensate? && a.id == id && Applied(a.effect) {
      assert Next(c, s, a).jobs[id] == Apply(s.jobs[id], RejectUnqueued(a.stamp));
    }
  }

  lemma RewriteByWorker(c: Config, s: State, a: Action, id: JobId)
    requires Disciplined(c) && Statuses(s) && Records(s) && Enabled(c, s, a) && (a.Mark? || a.Persist?)
    requires id in s.jobs && id in Next(c, s, a).jobs
    ensures Rewritten(s.jobs[id], Next(c, s, a).jobs[id])
    ensures s.jobs[id].status == Queued && Next(c, s, a).jobs[id].status != Queued ==>
      Next(c, s, a).jobs[id].status == Running
  {
    var before, after := s.jobs[id], Next(c, s, a).jobs[id];
    if after != before {
      assert Live(s, a.w) && Knows(before, s.workers[a.w].pc);
      if a.Mark? {
        assert after == Apply(before, MarkRunning(a.stamp));
      } else {
        assert after == Apply(before, Complete(s.workers[a.w].pc.outcome, a.stamp));
      }
    }
  }

  lemma RecordStep(c: Config, s: State, a: Action, id: JobId)
    requires Disciplined(c) && Ids(s) && Statuses(s) && Records(s) && Enabled(c, s, a)
    requires id in Next(c, s, a).jobs
    ensures Coherent(Next(c, s, a).jobs[id]) && Next(c, s, a).jobs[id].updatedAt <= Next(c, s, a).now
  {
    if id in s.jobs {
      RewriteStep(c, s, a, id);
      WritesCoherent(s.jobs[id], Next(c, s, a).jobs[id]);
    }
  }

  lemma ReadAfterStep(c: Config, s: State, a: Action, w: WorkerId)
    requires Disciplined(c) && Ids(s) && Leases(s) && Statuses(s) && Records(s) && Enabled(c, s, a)
    requires Live(Next(c, s, a), w) && Next(c, s, a).workers[w].job in Next(c, s, a).jobs
    ensures ReadAfter(Next(c, s, a).jobs[Next(c, s, a).workers[w].job], Next(c, s, a).workers[w].pc)
  {
    if !Acts(a, w) {
      HolderWritesAlone(c, s, a, w);
    }
  }

  lemma RecordsStep(c: Config, s: State, a: Action)
    requires Disciplined(c) && Ids(s) && Leases(s) && Statuses(s) && Records(s) && Enabled(c, s, a)
    ensures Records(Next(c, s, a))
  {
    var t := Next(c, s, a);
    forall id | id in t.jobs ensures Coherent(t.jobs[id]) && t.jobs[id].updatedAt <= t.now {
      RecordStep(c, s, a, id);
    }
    forall w | Live(t, w) && t.workers[w].job in t.jobs
      ensures ReadAfter(t.jobs[t.workers[w].job], t.workers[w].pc)
    {
      ReadAfterStep(c, s, a, w);
    }
  }

  // ---------- The whole invariant ----------

  /** What holds as long as workers respect their leases. */
  ghost predicate Core(s: State) {
    Ids(s) && Deliveries(s) && Leases(s) && Outcomes(s) && Settled(s)
  }

  ghost predicate Inv(s: State) {
    Core(s) && Statuses(s) && Records(s)
  }

  lemma InitInv(s: State)
    requires Init(s)
    ensures Inv(s)
  {
  }

  lemma CoreStep(c: Config, s: State, a: Action)
    requires Timely(c) && Core(s) && Enabled(c, s, a)
    ensures Core(Next(c, s, a))
  {
    IdsStep(c, s, a);
    DeliveriesStep(c, s, a);
    LeasesStep(c, s, a);
    OutcomesStep(c, s, a);
    SettledStep(c, s, a);
  }

  lemma InvStep(c: Config, s: State, a: Action)
    requires Disciplined(c) && Inv(s) && Enabled(c, s, a)
    ensures Inv(Next(c, s, a))
  {
    CoreStep(c, s, a);
    StatusesStep(c, s, a);
    RecordsStep(c, s, a);
  }

  lemma {:induction false} CoreFollows(c: Config, r: Run, k: nat)
    requires Timely(c) && Follows(c, r) && Core(r.states[0]) && k < |r.states|
    ensures Core(r.states[k])
  {
    if k > 0 {
      CoreFollows(c, r, k - 1);
      CoreStep(c, r.states[k - 1], r.actions[k - 1]);
    }
  }

  lemma CoreAlong(c: Config, r: Run, k: nat)
    requires Timely(c) && IsRun(c, r) && k < |r.states|
    ensures Core(r.states[k])
  {
    InitInv(r.states[0]);
    CoreFollows(c, r, k);
  }

  lemma {:induction false} InvAlong(c: Config, r: Run, k: nat)
    requires Disciplined(c) && IsRun(c, r) && k < |r.states|
    ensures Inv(r.states[k])
  {
    if k == 0 {
      InitInv(r.states[0]);
    } else {
      InvAlong(c, r, k - 1);
      InvStep(c, r.states[k - 1], r.actions[k - 1]);
    }
  }

  /** No late Ack or Nack takes effect in the run; late loads, marks, calls and writes may. */
  ghost predicate NoLateRelease(r: Run) {
    forall i {:trigger r.actions[i]} :: 0 <= i < |r.actions| && i < |r.states| ==> Gentle(r.states[i], r.actions[i])
  }

  lemma TimelyReleases(c: Config, r: Run)
    requires c.leaseRespected && Follows(c, r)
    ensures NoLateRelease(r)
  {
  }

  lemma {:induction false} LeasesAlong(c: Config, r: Run, k: nat)
    requires c.lease > 0 && IsRun(c, r) && NoLateRelease(r) && k < |r.states|
    ensures Leases(r.states[k])
  {
    if k == 0 {
      InitInv(r.states[0]);
    } else {
      LeasesAlong(c, r, k - 1);
      DeliveriesAlong(c, r, k - 1);
      LeasesStep(c, r.states[k - 1], r.actions[k - 1]);
    }
  }

  /** The part that needs no hypothesis. */
  lemma {:induction false} DeliveriesAlong(c: Config, r: Run, k: nat)
    requires IsRun(c, r) && k < |r.states|
    ensures Ids(r.states[k]) && Deliveries(r.states[k])
  {
    if k > 0 {
      DeliveriesAlong(c, r, k - 1);
      IdsStep(c, r.states[k - 1], r.actions[k - 1]);
      DeliveriesStep(c, r.states[k - 1], r.actions[k - 1]);
    }
  }
}
