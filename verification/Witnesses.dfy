/**
 The two hypotheses of the protocol are needed: for each, and for every lease, runs
 that break the guarantees once the hypothesis is dropped.
 */
module Witnesses {
  import opened Wrappers
  import opened Jobs
  import opened Protocol
  import LeaseTable

  const ID := JobId("j")
  const TASK := Request("m", "", "", Translation("s", "Korean", "", "", Some(map[]), "", "", [], []))
  const REPLY := Reply("t", "", "", 0, 0, 0)

  const START := State(0, map[], map[], map[0 := Idle, 1 := Idle], map[], History({}, {}, {}, 0, {}, {}, {}))

  lemma ReachNext(c: Config, s: State, a: Action)
    requires Reachable(c, s) && Enabled(c, s, a)
    ensures Reachable(c, Next(c, s, a))
  {
    var r :| IsRun(c, r) && r.states[|r.actions|] == s;
    LongerRun(c, r, a);
    var e := Longer(c, r, a);
    assert IsRun(c, e) && e.states[|e.actions|] == Next(c, s, a);
  }

  lemma ReachStart(c: Config)
    ensures Reachable(c, START)
  {
    var r := Run([START], []);
    assert IsRun(c, r) && r.states[|r.actions|] == START;
  }

  /** The job was posted, and its row is waiting. */
  ghost function Posted(post: Post): State {
    START.(jobs := map[ID := NewJob(ID, "a", TASK, 0, 5)],
           queue := map[ID := LeaseTable.Row(0, None)],
           posts := map[ID := post],
           history := History({ID}, {ID}, {}, 0, {}, {}, {}))
  }

  lemma ReachPosted(c: Config, effect: Effect)
    requires Applied(effect) && (c.enqueueClean ==> effect == Done)
    ensures Reachable(c, Posted(if effect == Done then Enqueued else Refused(0)))
  {
    ReachStart(c);
    ReachNext(c, START, CreateJob(ID, "a", TASK, 0, 5, Done));
    var s := Next(c, START, CreateJob(ID, "a", TASK, 0, 5, Done));
    ReachNext(c, s, EnqueueJob(ID, effect));
    assert Next(c, s, EnqueueJob(ID, effect)) == Posted(if effect == Done then Enqueued else Refused(0));
  }

  /** Worker `w` takes up the job in state `s`, up to the moment before its outcome is written. */
  ghost function TakenUp(c: Config, s: State, w: WorkerId, outcome: Result<Reply, string>): State
    requires ID in s.jobs && ID in s.queue
  {
    var call := Call(ID, s.history.deliveries);
    s.(jobs := if s.jobs[ID].status == Queued then UpdateStore(s.jobs, ID, MarkRunning(s.now)) else s.jobs,
       queue := LeaseTable.Lease(s.queue, ID, s.now + c.lease),
       workers := s.workers[w := Busy(ID, s.now + c.lease, s.history.deliveries, Processed(outcome, s.now))],
       history := s.history.(deliveries := s.history.deliveries + 1, called := s.history.called + {call}))
  }

  /** The same, up to the moment before `Process` is called. */
  ghost function MadeReady(c: Config, s: State, w: WorkerId): State
    requires ID in s.jobs && ID in s.queue
  {
    s.(jobs := if s.jobs[ID].status == Queued then UpdateStore(s.jobs, ID, MarkRunning(s.now)) else s.jobs,
       queue := LeaseTable.Lease(s.queue, ID, s.now + c.lease),
       workers := s.workers[w := Busy(ID, s.now + c.lease, s.history.deliveries, Ready)],
       history := s.history.(deliveries := s.history.deliveries + 1))
  }

  ghost predicate CanTakeUp(c: Config, s: State, w: WorkerId) {
    && c.lease > 0 && Enabled(c, s, Receive(w, ID))
    && ID in s.jobs && (s.jobs[ID].status == Queued || s.jobs[ID].status == Running)
  }

  lemma ReachTakenUp(c: Config, s: State, w: WorkerId, outcome: Result<Reply, string>)
    requires Reachable(c, s) && CanTakeUp(c, s, w)
    ensures Reachable(c, TakenUp(c, s, w, outcome))
  {
    ReachReady(c, s, w);
    var ready := MadeReady(c, s, w);
    assert ready == TakenUp(c, s, w, outcome).(workers := ready.workers, history := ready.history);
    ReachNext(c, ready, CallProcess(w));
    var processing := Next(c, ready, CallProcess(w));
    ReachNext(c, processing, ReturnProcess(w, outcome));
    assert Next(c, processing, ReturnProcess(w, outcome)) == TakenUp(c, s, w, outcome);
  }

  lemma ReachReady(c: Config, s: State, w: WorkerId)
    requires Reachable(c, s) && CanTakeUp(c, s, w)
    ensures Reachable(c, MadeReady(c, s, w))
  {
    ReachNext(c, s, Receive(w, ID));
    var received := Next(c, s, Receive(w, ID));
    ReachNext(c, received, Load(w, true));
    if s.jobs[ID].status == Queued {
      var loaded := Next(c, received, Load(w, true));
      ReachNext(c, loaded, Mark(w, s.now, Done));
      assert Next(c, loaded, Mark(w, s.now, Done)).workers
          == s.workers[w := Busy(ID, s.now + c.lease, s.history.deliveries, Ready)];
    } else {
      assert Next(c, received, Load(w, true)).workers
          == s.workers[w := Busy(ID, s.now + c.lease, s.history.deliveries, Ready)];
    }
  }

  /** The step `a` turns a succeeded record into a failed one. */
  ghost predicate Overwrites(c: Config, s: State, a: Action) {
    && Reachable(c, s) && Enabled(c, s, a)
    && ID in s.jobs && s.jobs[ID].status == Succeeded
    && ID in Next(c, s, a).jobs && Next(c, s, a).jobs[ID].status == Failed
  }

  /** Worker 0 is about to write a failure, and its lease has just run out. */
  ghost function Stale(c: Config): State {
    TakenUp(c, Posted(Enqueued), 0, Err("timeout")).(now := c.lease)
  }

  lemma ReachStale(c: Config)
    requires c.lease > 0
    ensures Reachable(c, Stale(c))
  {
    ReachPosted(c, Done);
    ReachTakenUp(c, Posted(Enqueued), 0, Err("timeout"));
    ReachNext(c, TakenUp(c, Posted(Enqueued), 0, Err("timeout")), Tick(c.lease));
  }

  /** A worker that writes after its lease has run out. */
  lemma StaleWorkerOverwrites(c: Config) returns (s: State, a: Action)
    requires c.lease > 0 && !c.leaseRespected
    ensures Overwrites(c, s, a) && a.Persist? && CalledTwice(c, Next(c, s, a))
  {
    ReachStale(c);
    var s2 := Stale(c);
    ReachTakenUp(c, s2, 1, Ok(REPLY));
    var s3 := TakenUp(c, s2, 1, Ok(REPLY));
    ReachNext(c, s3, Persist(1, c.lease, Done));
    s, a := Next(c, s3, Persist(1, c.lease, Done)), Persist(0, c.lease, Done);
    ReachNext(c, s, a);
  }

  /** `Process` was called twice for the job, and no delivery ended without its write. */
  ghost predicate CalledTwice(c: Config, s: State) {
    Reachable(c, s) && Call(ID, 0) in s.history.called && Call(ID, 1) in s.history.called && s.history.lost == {}
    && forall w :: IsBusy(s, w) ==> !InProcess(s.workers[w].pc)
  }

  /** The job was accepted and loaded by worker 0, whose lease has just run out. */
  ghost function Overdue(c: Config): State {
    var s := Posted(Enqueued);
    s.(now := c.lease,
       queue := map[ID := LeaseTable.Row(0, Some(c.lease))],
       workers := s.workers[0 := Busy(ID, c.lease, 0, Loaded(s.jobs[ID], 0))],
       posts := map[],
       history := s.history.(accepted := {ID}, deliveries := 1))
  }

  lemma ReachOverdue(c: Config)
    requires c.lease > 0
    ensures Reachable(c, Overdue(c))
  {
    ReachPosted(c, Done);
    var s0 := Next(c, Posted(Enqueued), Respond(ID));
    ReachNext(c, Posted(Enqueued), Respond(ID));
    ReachNext(c, s0, Receive(0, ID));
    var s1 := Next(c, s0, Receive(0, ID));
    ReachNext(c, s1, Load(0, true));
    var s2 := Next(c, s1, Load(0, true));
    assert s2 == Overdue(c).(now := 0);
    ReachNext(c, s2, Tick(c.lease));
  }

  /** A worker that marks the job running after another one has completed and acknowledged it. */
  lemma StaleWorkerLosesJob(c: Config) returns (s: State)
    requires c.lease > 0 && !c.leaseRespected
    ensures Reachable(c, s) && ID in s.history.accepted && ID !in s.queue
    ensures ID in s.jobs && s.jobs[ID].status == Running && s.jobs[ID].completedAt.Some?
  {
    ReachOverdue(c);
    var s3 := Overdue(c);
    ReachTakenUp(c, s3, 1, Ok(REPLY));
    var s4 := TakenUp(c, s3, 1, Ok(REPLY));
    ReachNext(c, s4, Persist(1, c.lease, Done));
    var s5 := Next(c, s4, Persist(1, c.lease, Done));
    ReachNext(c, s5, Ack(1, true));
    var s6 := Next(c, s5, Ack(1, true));
    ReachNext(c, s6, Mark(0, c.lease, Done));
    s := Next(c, s6, Mark(0, c.lease, Done));
  }

  /** A worker that gives back a delivery another one has received meanwhile, and receives it again. */
  lemma StaleWorkerShares(c: Config) returns (s: State)
    requires c.lease > 0 && !c.leaseRespected
    ensures Reachable(c, s) && Live(s, 0) && Live(s, 1) && s.workers[0].job == s.workers[1].job
  {
    ReachPosted(c, Done);
    var s0 := Posted(Enqueued);
    ReachNext(c, s0, Receive(0, ID));
    var s1 := Next(c, s0, Receive(0, ID));
    ReachNext(c, s1, Load(0, false));
    var s2 := Next(c, s1, Load(0, false));
    ReachNext(c, s2, Tick(c.lease));
    var s3 := Next(c, s2, Tick(c.lease));
    ReachNext(c, s3, Receive(1, ID));
    var s4 := Next(c, s3, Receive(1, ID));
    ReachNext(c, s4, Nack(0, true));
    var s5 := Next(c, s4, Nack(0, true));
    ReachNext(c, s5, Receive(0, ID));
    s := Next(c, s5, Receive(0, ID));
  }

  /** An Enqueue that reported an error but left its row, then the handler's compensation. */
  lemma LeftoverRowOverwrites(c: Config) returns (s: State, a: Action)
    requires c.lease > 0 && !c.enqueueClean
    ensures Overwrites(c, s, a) && a.Compensate?
  {
    ReachPosted(c, FailedApplied);
    var s0 := Posted(Refused(0));
    ReachTakenUp(c, s0, 0, Ok(REPLY));
    var s1 := TakenUp(c, s0, 0, Ok(REPLY));
    ReachNext(c, s1, Persist(0, 0, Done));
    s, a := Next(c, s1, Persist(0, 0, Done)), Compensate(ID, 0, Done);
  }

  /** The leftover row was received and its job loaded before the compensation. */
  ghost function LoadedEarly(c: Config): State {
    var s := Posted(Refused(0));
    s.(queue := map[ID := LeaseTable.Row(0, Some(c.lease))],
       workers := s.workers[0 := Busy(ID, c.lease, 0, Loaded(s.jobs[ID], 0))],
       history := s.history.(deliveries := 1))
  }

  lemma ReachLoaded(c: Config)
    requires c.lease > 0 && !c.enqueueClean
    ensures Reachable(c, LoadedEarly(c))
  {
    ReachPosted(c, FailedApplied);
    var s0 := Posted(Refused(0));
    ReachNext(c, s0, Receive(0, ID));
    var s1 := Next(c, s0, Receive(0, ID));
    ReachNext(c, s1, Load(0, true));
    assert Next(c, s1, Load(0, true)) == LoadedEarly(c);
  }

  /** The same fault, with a worker that loaded the job before the compensation and marks it running after. */
  lemma LeftoverRowRevives(c: Config) returns (s: State)
    requires c.lease > 0 && !c.enqueueClean
    ensures Reachable(c, s) && ID in s.jobs && s.jobs[ID].status == Running && s.jobs[ID].completedAt.Some?
  {
    ReachLoaded(c);
    var s2 := LoadedEarly(c);
    ReachNext(c, s2, Compensate(ID, 0, Done));
    var s3 := Next(c, s2, Compensate(ID, 0, Done));
    ReachNext(c, s3, Mark(0, 0, Done));
    s := Next(c, s3, Mark(0, 0, Done));
  }
}
