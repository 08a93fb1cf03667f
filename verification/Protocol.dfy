/**
 The asynchronous job protocol as a transition system: REST handlers create and
 enqueue jobs, scheduler workers receive, load, mark, process, persist and
 acknowledge them, and expired jobs are deleted at any time. One step is one
 store or queue operation, so all parties interleave between operations.
 An `Action` names every choice a step makes; `Enabled` says when it can happen
 and `Next` what it does.
 */
module Protocol {
  import opened Wrappers
  import opened Jobs
  import LeaseTable

  type WorkerId = nat

  /**
   `leaseRespected`: no worker acts at or after its lease deadline.
   `enqueueClean`: an Enqueue that reports an error has left no row.
   */
  datatype Config = Config(lease: nat, leaseRespected: bool, enqueueClean: bool)

  /** Leases last for some time, and workers respect them. */
  ghost predicate Timely(c: Config) {
    c.lease > 0 && c.leaseRespected
  }

  /** Besides, a failed Enqueue leaves nothing behind. */
  ghost predicate Disciplined(c: Config) {
    Timely(c) && c.enqueueClean
  }

  /** What became of one operation: the caller sees an error in the last two. */
  datatype Effect = Done | FailedUnapplied | FailedApplied

  predicate Applied(effect: Effect) {
    effect != FailedUnapplied
  }

  /** Where a worker stands inside `handle`; instants say when a value was read. */
  datatype Pc =
    | Received
    | Loaded(snapshot: Job, at: Time)
    | Ready
    | Processing
    | Processed(outcome: Result<Reply, string>, at: Time)
    | Acking
    | Nacking

  datatype Worker = Idle | Busy(job: JobId, deadline: Time, delivery: nat, pc: Pc)

  /** Where a POST handler stands after `Store.Create`. */
  datatype Post = Stored | Enqueued | Refused(at: Time)

  /** One call of `Process`: each delivery makes at most one. */
  datatype Call = Call(job: JobId, delivery: nat)

  /**
   What has happened so far: IDs ever allocated, IDs that ever had a row, IDs
   answered with 202, deliveries made, calls of `Process` made, calls whose
   delivery ended without a terminal write, and calls whose delivery wrote a
   terminal record or found the job deleted.
   */
  datatype History = History(
    used: set<JobId>,
    enqueued: set<JobId>,
    accepted: set<JobId>,
    deliveries: nat,
    called: set<Call>,
    lost: set<Call>,
    settled: set<Call>)

  datatype State = State(
    now: Time,
    jobs: Store,
    queue: LeaseTable.Rows,
    workers: map<WorkerId, Worker>,
    posts: map<JobId, Post>,
    history: History)

  datatype Action =
    | Tick(time: nat)
    | CreateJob(id: JobId, owner: string, request: Request, stamp: Time, retention: nat, effect: Effect)
    | EnqueueJob(id: JobId, effect: Effect)
    | Compensate(id: JobId, stamp: Time, effect: Effect)
    | Respond(id: JobId)
    | DropPost(id: JobId)
    | Receive(w: WorkerId, id: JobId)
    | Load(w: WorkerId, ok: bool)
    | Mark(w: WorkerId, stamp: Time, effect: Effect)
    | CallProcess(w: WorkerId)
    | ReturnProcess(w: WorkerId, outcome: Result<Reply, string>)
    | Persist(w: WorkerId, stamp: Time, effect: Effect)
    | Ack(w: WorkerId, applied: bool)
    | Nack(w: WorkerId, applied: bool)
    | Crash(w: WorkerId)
    | Expire(before: Time)

  ghost predicate Init(s: State) {
    && s.jobs == map[] && s.queue == map[] && s.posts == map[]
    && (forall w :: w in s.workers ==> s.workers[w] == Idle)
    && s.history == History({}, {}, {}, 0, {}, {}, {})
  }

  predicate IsBusy(s: State, w: WorkerId) {
    w in s.workers && s.workers[w].Busy?
  }

  /** A busy worker whose lease has not run out. */
  predicate Live(s: State, w: WorkerId) {
    IsBusy(s, w) && s.now < s.workers[w].deadline
  }

  predicate MayAct(c: Config, s: State, w: WorkerId) {
    IsBusy(s, w) && (c.leaseRespected ==> Live(s, w))
  }

  predicate Enabled(c: Config, s: State, a: Action) {
    match a
    case Tick(time) => time > 0
    case CreateJob(id, owner, _, stamp, retention, _) =>
      id !in s.history.used && owner != "" && retention > 0 && stamp <= s.now
    case EnqueueJob(id, effect) =>
      id in s.posts && s.posts[id].Stored? && (c.enqueueClean ==> effect != FailedApplied)
    case Compensate(id, stamp, _) =>
      id in s.posts && s.posts[id].Refused? && s.posts[id].at <= stamp <= s.now
    case Respond(id) => id in s.posts && s.posts[id].Enqueued?
    case DropPost(id) => id in s.posts
    case Receive(w, id) =>
      && w in s.workers && s.workers[w].Idle?
      && id in s.queue && LeaseTable.Available(s.queue[id], s.now)
    case Load(w, _) => MayAct(c, s, w) && s.workers[w].pc.Received?
    case Mark(w, stamp, _) =>
      MayAct(c, s, w) && s.workers[w].pc.Loaded? && s.workers[w].pc.at <= stamp <= s.now
    case CallProcess(w) => MayAct(c, s, w) && s.workers[w].pc.Ready?
    case ReturnProcess(w, _) => MayAct(c, s, w) && s.workers[w].pc.Processing?
    case Persist(w, stamp, _) =>
      MayAct(c, s, w) && s.workers[w].pc.Processed? && s.workers[w].pc.at <= stamp <= s.now
    case Ack(w, _) => MayAct(c, s, w) && s.workers[w].pc.Acking?
    case Nack(w, _) => MayAct(c, s, w) && s.workers[w].pc.Nacking?
    case Crash(w) => IsBusy(s, w)
    case Expire(_) => true
  }

  function Next(c: Config, s: State, a: Action): State
    requires Enabled(c, s, a)
  {
    match a
    case Tick(time) => s.(now := s.now + time)
    case CreateJob(id, owner, request, stamp, retention, effect) =>
      s.(jobs := if Applied(effect) then s.jobs[id := NewJob(id, owner, request, stamp, retention)] else s.jobs,
         posts := if effect.Done? then s.posts[id := Stored] else s.posts,
         history := s.history.(used := s.history.used + {id}))
    case EnqueueJob(id, effect) =>
      s.(queue := if Applied(effect) then LeaseTable.Enqueue(s.queue, id, s.now) else s.queue,
         posts := s.posts[id := if effect.Done? then Enqueued else Refused(s.now)],
         history := if Applied(effect) then s.history.(enqueued := s.history.enqueued + {id}) else s.history)
    case Compensate(id, stamp, effect) =>
      s.(jobs := if Applied(effect) then UpdateStore(s.jobs, id, RejectUnqueued(stamp)) else s.jobs,
         posts := s.posts - {id})
    case Respond(id) =>
      s.(posts := s.posts - {id}, history := s.history.(accepted := s.history.accepted + {id}))
    case DropPost(id) => s.(posts := s.posts - {id})
    case Receive(w, id) =>
      s.(queue := LeaseTable.Lease(s.queue, id, s.now + c.lease),
         workers := s.workers[w := Busy(id, s.now + c.lease, s.history.deliveries, Received)],
         history := s.history.(deliveries := s.history.deliveries + 1))
    case Load(w, ok) => Goto(s, w, AfterLoad(s, s.workers[w].job, ok))
    case Mark(w, stamp, effect) =>
      var id := s.workers[w].job;
      Goto(s, w, if effect.Done? && id in s.jobs then Ready else Nacking)
        .(jobs := if Applied(effect) then UpdateStore(s.jobs, id, MarkRunning(stamp)) else s.jobs)
    case CallProcess(w) =>
      Goto(s, w, Processing).(history := s.history.(called := s.history.called + {CallOf(s.workers[w])}))
    case ReturnProcess(w, outcome) => Goto(s, w, Processed(outcome, s.now))
    case Persist(w, stamp, effect) =>
      var id := s.workers[w].job;
      Goto(s, w, if effect.Done? && id in s.jobs then Acking else Nacking)
        .(jobs := if Applied(effect) then UpdateStore(s.jobs, id, Complete(s.workers[w].pc.outcome, stamp)) else s.jobs,
          history := Settle(s.history, CallOf(s.workers[w]), if id in s.jobs then Applied(effect) else effect.Done?))
    case Ack(w, applied) =>
      Release(s, w).(queue := if applied then LeaseTable.Ack(s.queue, s.workers[w].job) else s.queue)
    case Nack(w, applied) =>
      Release(s, w).(queue := if applied then LeaseTable.Nack(s.queue, s.workers[w].job, s.now) else s.queue)
    case Crash(w) =>
      Release(s, w).(history := if InProcess(s.workers[w].pc)
                                then Settle(s.history, CallOf(s.workers[w]), false) else s.history)
    case Expire(before) => s.(jobs := DeleteExpired(s.jobs, before))
  }

  function Goto(s: State, w: WorkerId, pc: Pc): State
    requires IsBusy(s, w)
  {
    s.(workers := s.workers[w := s.workers[w].(pc := pc)])
  }

  function Release(s: State, w: WorkerId): State {
    s.(workers := s.workers[w := Idle])
  }

  /** The branch `handle` takes after `Store.Get`. */
  function AfterLoad(s: State, id: JobId, ok: bool): Pc {
    if !ok then Nacking
    else if id !in s.jobs || Terminal(s.jobs[id].status) then Acking
    else if s.jobs[id].status.Queued? then Loaded(s.jobs[id], s.now)
    else Ready
  }

  function CallOf(worker: Worker): Call
    requires worker.Busy?
  {
    Call(worker.job, worker.delivery)
  }

  /** `Process` was called by this delivery and its outcome is not yet written. */
  predicate InProcess(pc: Pc) {
    pc.Processing? || pc.Processed?
  }

  function Settle(h: History, call: Call, done: bool): History {
    if done then h.(settled := h.settled + {call}) else h.(lost := h.lost + {call})
  }

  /** A run: one more state than actions, each action enabled where it happens. */
  datatype Run = Run(states: seq<State>, actions: seq<Action>)

  ghost predicate Follows(c: Config, r: Run) {
    && |r.states| == |r.actions| + 1
    && forall i {:trigger r.actions[i]} :: 0 <= i < |r.actions| ==>
         Enabled(c, r.states[i], r.actions[i]) && r.states[i + 1] == Next(c, r.states[i], r.actions[i])
  }

  ghost predicate IsRun(c: Config, r: Run) {
    Follows(c, r) && Init(r.states[0])
  }

  ghost predicate Reachable(c: Config, s: State) {
    exists r :: IsRun(c, r) && r.states[|r.actions|] == s
  }

  /** A run without its last step. */
  function Front(r: Run): Run
    requires |r.actions| > 0 && |r.states| == |r.actions| + 1
  {
    Run(r.states[..|r.actions|], r.actions[..|r.actions| - 1])
  }

  /** The run with one more step. */
  ghost function Longer(c: Config, r: Run, a: Action): Run
    requires IsRun(c, r) && Enabled(c, r.states[|r.actions|], a)
  {
    Run(r.states + [Next(c, r.states[|r.actions|], a)], r.actions + [a])
  }

  lemma LongerRun(c: Config, r: Run, a: Action)
    requires IsRun(c, r) && Enabled(c, r.states[|r.actions|], a)
    ensures IsRun(c, Longer(c, r, a))
    ensures var e := Longer(c, r, a); e.states[|e.actions|] == Next(c, r.states[|r.actions|], a)
  {
    var e := Longer(c, r, a);
    assert forall i {:trigger e.actions[i]} :: 0 <= i < |r.actions| ==> e.actions[i] == r.actions[i];
  }
}
