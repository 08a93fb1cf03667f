/**
 The code that takes the protocol's steps: `handle` of the scheduler and
 `create` of the REST handler, written as they run, with every other party free
 to act between any two of their operations. Each is shown to be a stretch of a
 run of the protocol, and to end where its caller expects.
 */
module Scheduler {
  import opened Wrappers
  import opened Jobs
  import opened Protocol
  import opened Invariants
  import opened Accounting
  import opened Guarantees
  import opened Compensation
  import opened Provenance
  import LeaseTable

  /** Who is taking steps: a worker inside `handle`, or the handler of one POST. */
  datatype Actor = WorkerActor(w: WorkerId) | PostActor(id: JobId)

  predicate Belongs(a: Action, actor: Actor) {
    match actor
    case WorkerActor(w) => Acts(a, w)
    case PostActor(id) =>
      (a.CreateJob? || a.EnqueueJob? || a.Compensate? || a.Respond? || a.DropPost?) && a.id == id
  }

  /** How many deliveries a worker has received, calls of `Process` made, and faults met. */
  datatype Tally = Tally(deliveries: nat, calls: nat, faults: nat)

  ghost function TallyOf(actions: seq<Action>, w: WorkerId): Tally {
    if actions == [] then Tally(0, 0, 0) else
      Counted(TallyOf(actions[..|actions| - 1], w), actions[|actions| - 1], w)
  }

  function Counted(t: Tally, a: Action, w: WorkerId): Tally {
    Tally(t.deliveries + (if a.Receive? && a.w == w then 1 else 0),
          t.calls + (if a.CallProcess? && a.w == w then 1 else 0),
          t.faults + (if IsFault(a) && a.w == w then 1 else 0))
  }

  datatype StoreError = NotFound | Unavailable

  /** How a delivery ended for the worker that held it. */
  datatype Ending = Acked | Nacked | Died

  /** A delivery that was received, and how it ended. */
  datatype Handling = Handling(job: JobId, ending: Ending)

  ghost predicate NothingAvailable(s: State) {
    forall id :: id in s.queue ==> !LeaseTable.Available(s.queue[id], s.now)
  }

  datatype HttpStatus = Accepted202 | Unprocessable422 | Internal500 | Unavailable503

  /** What a record is never changed in. */
  predicate SameIdentity(before: Job, after: Job) {
    (after.id, after.owner, after.request, after.createdAt, after.expiresAt)
    == (before.id, before.owner, before.request, before.createdAt, before.expiresAt)
  }

  /** What is deleted stays deleted, and what stays stored keeps its identity. */
  ghost predicate Keeps(s: State, t: State) {
    && s.history.used <= t.history.used
    && forall id :: id in s.history.used && id in t.jobs ==> id in s.jobs && SameIdentity(s.jobs[id], t.jobs[id])
  }

  /** A terminal record that stays stored is as it was. */
  ghost predicate KeepsTerminal(s: State, t: State) {
    forall id :: id in s.history.used && id in s.jobs && Terminal(s.jobs[id].status) && id in t.jobs ==>
      t.jobs[id] == s.jobs[id]
  }

  /** What has happened stays so. */
  ghost predicate Extends(before: Run, after: Run) {
    && |before.states| <= |after.states|
    && forall k :: 0 <= k < |before.states| ==> after.states[k] == before.states[k]
  }

  /** The party that takes no step finds its own place unchanged, and the clock not turned back. */
  ghost predicate KeepsPlace(s: State, t: State, actor: Actor) {
    && s.now <= t.now
    && match actor
       case WorkerActor(w) => w in s.workers ==> w in t.workers && t.workers[w] == s.workers[w]
       case PostActor(id) =>
         && (id in s.posts ==> id in t.posts && t.posts[id] == s.posts[id])
         && (id in s.history.used <==> id in t.history.used)
         && (id in s.history.enqueued <==> id in t.history.enqueued)
         && (id in s.history.accepted <==> id in t.history.accepted)
  }

  lemma OthersKeepPlace(c: Config, s: State, a: Action, actor: Actor)
    requires Enabled(c, s, a) && !Belongs(a, actor) && StoredIds(s) && QueuedIds(s)
    ensures KeepsPlace(s, Next(c, s, a), actor)
  {
  }

  lemma StepKeeps(c: Config, s: State, a: Action)
    requires Enabled(c, s, a)
    ensures Keeps(s, Next(c, s, a))
  {
  }

  lemma StepKeepsTerminal(c: Config, s: State, a: Action)
    requires Disciplined(c) && Inv(s) && Enabled(c, s, a)
    ensures KeepsTerminal(s, Next(c, s, a))
  {
    forall id | id in s.jobs && Terminal(s.jobs[id].status) && id in Next(c, s, a).jobs
      ensures Next(c, s, a).jobs[id] == s.jobs[id]
    {
      RewriteStep(c, s, a, id);
    }
  }

  lemma LastKeepsTerminal(c: Config, r: Run, a: Action)
    requires IsRun(c, r) && Enabled(c, r.states[|r.actions|], a)
    ensures Disciplined(c) ==> KeepsTerminal(r.states[|r.actions|], Next(c, r.states[|r.actions|], a))
  {
    if Disciplined(c) {
      InvAlong(c, r, |r.actions|);
      StepKeepsTerminal(c, r.states[|r.actions|], a);
    }
  }

  lemma LongerExtends(c: Config, r: Run, a: Action)
    requires IsRun(c, r) && Enabled(c, r.states[|r.actions|], a)
    ensures Extends(r, Longer(c, r, a))
  {
  }

  lemma LongerTally(actions: seq<Action>, a: Action)
    ensures forall w {:trigger TallyOf(actions + [a], w)} ::
      TallyOf(actions + [a], w) == Counted(TallyOf(actions, w), a, w)
  {
    assert (actions + [a])[..|actions + [a]| - 1] == actions;
  }

  class Deployment {
    const config: Config
    var state: State
    ghost var run: Run
    ghost var tallies: map<WorkerId, Tally>

    /** `run` is what has happened so far, and `tallies` counts it worker by worker. */
    ghost predicate Valid()
      reads this
    {
      && IsRun(config, run) && run.states[|run.actions|] == state
      && (forall w {:trigger TallyOf(run.actions, w)} :: TallyOf(run.actions, w) == Count(w))
    }

    ghost function Count(w: WorkerId): Tally
      reads this
    {
      if w in tallies then tallies[w] else Tally(0, 0, 0)
    }

    constructor (config: Config, workers: map<WorkerId, Worker>, now: Time)
      requires forall w :: w in workers ==> workers[w] == Idle
      ensures Valid() && this.config == config && run.actions == []
    {
      this.config := config;
      state := State(now, map[], map[], workers, map[], History({}, {}, {}, 0, {}, {}, {}));
      run := Run([State(now, map[], map[], workers, map[], History({}, {}, {}, 0, {}, {}, {}))], []);
      tallies := map[];
    }

    method Perform(a: Action)
      requires Valid() && Enabled(config, state, a)
      modifies this
      ensures Valid() && state == Next(config, old(state), a)
      ensures run.actions == old(run.actions) + [a]
      ensures forall w :: Count(w) == Counted(old(Count(w)), a, w)
      ensures Keeps(old(state), state) && Extends(old(run), run)
      ensures Disciplined(config) ==> KeepsTerminal(old(state), state)
    {
      StepKeeps(config, state, a);
      LastKeepsTerminal(config, run, a);
      LongerRun(config, run, a);
      LongerExtends(config, run, a);
      LongerTally(run.actions, a);
      state := Next(config, state, a);
      run := Longer(config, run, a);
      if IsBusyAction(a) || a.Receive? {
        tallies := tallies[a.w := Counted(Count(a.w), a, a.w)];
      }
    }

    /** One step of the party `actor`. */
    method Act(actor: Actor, a: Action)
      requires Valid() && Enabled(config, state, a) && Belongs(a, actor)
      modifies this
      ensures Valid() && state == Next(config, old(state), a)
      ensures actor.WorkerActor? ==> Count(actor.w) == Counted(old(Count(actor.w)), a, actor.w)
      ensures Keeps(old(state), state) && Extends(old(run), run)
      ensures Disciplined(config) ==> KeepsTerminal(old(state), state)
    {
      Perform(a);
    }

    /** Any number of steps of the others. */
    method Interfere(actor: Actor)
      requires Valid()
      modifies this
      ensures Valid() && KeepsPlace(old(state), state, actor)
      ensures actor.WorkerActor? ==> Count(actor.w) == old(Count(actor.w))
      ensures Keeps(old(state), state) && Extends(old(run), run)
      ensures Disciplined(config) ==> KeepsTerminal(old(state), state)
    {
      var n: nat := *;
      while n > 0
        invariant Valid() && KeepsPlace(old(state), state, actor)
        invariant actor.WorkerActor? ==> Count(actor.w) == old(Count(actor.w))
        invariant Keeps(old(state), state) && Extends(old(run), run)
        invariant Disciplined(config) ==> KeepsTerminal(old(state), state)
      {
        var a: Action := *;
        if Enabled(config, state, a) && !Belongs(a, actor) {
          DeliveriesAlong(config, run, |run.actions|);
          OthersKeepPlace(config, state, a, actor);
          Perform(a);
        }
        n := n - 1;
      }
    }

    // ---------- One operation of a worker, after the others have had their turn ----------

    ghost predicate InHand(w: WorkerId, id: JobId)
      reads this
    {
      Valid() && IsBusy(state, w) && state.workers[w].job == id
    }

    ghost predicate Free(w: WorkerId)
      reads this
    {
      Valid() && w in state.workers && state.workers[w] == Idle
    }

    /** The job: once deleted it stays so, and once terminal it stays as it is, if both hypotheses hold. */
    ghost predicate Steady(s: State, t: State, id: JobId) {
      id in s.history.used ==>
        && id in t.history.used
        && (id in t.jobs ==> id in s.jobs)
        && (Disciplined(config) && id in t.jobs && Terminal(s.jobs[id].status) ==> t.jobs[id] == s.jobs[id])
    }

    /** The others act; the worker may die, and takes no further step if its lease ran out meanwhile. */
    method Resume(w: WorkerId, id: JobId) returns (alive: bool)
      requires InHand(w, id)
      modifies this
      ensures Extends(old(run), run) && Steady(old(state), state, id) && old(state).now <= state.now
      ensures Count(w) == old(Count(w)).(faults := old(Count(w)).faults + if alive then 0 else 1)
      ensures alive ==> InHand(w, id) && MayAct(config, state, w) && state.workers[w] == old(state).workers[w]
      ensures !alive ==> Free(w)
    {
      Interfere(WorkerActor(w));
      var dies: bool := *;
      alive := MayAct(config, state, w) && !dies;
      if !alive {
        Act(WorkerActor(w), Crash(w));
      }
    }

    /** What `Store.Get` returned is what is stored, and the worker is where the code branches. */
    ghost predicate FoundAs(found: Result<Job, StoreError>, w: WorkerId, id: JobId)
      requires IsBusy(state, w)
      reads this
    {
      match found
      case Ok(job) =>
        id in state.jobs && job == state.jobs[id] && state.workers[w].pc == AfterLoad(state, id, true)
      case Err(NotFound) => id !in state.jobs && state.workers[w].pc == Acking
      case Err(Unavailable) => state.workers[w].pc == Nacking
    }

    /** `Store.Get` for the job of the delivery. */
    method Get(w: WorkerId, id: JobId) returns (alive: bool, found: Result<Job, StoreError>)
      requires InHand(w, id) && state.workers[w].pc == Received
      modifies this
      ensures Extends(old(run), run) && Steady(old(state), state, id)
      ensures Count(w).calls == old(Count(w)).calls && Count(w).deliveries == old(Count(w)).deliveries
      ensures Count(w).faults == old(Count(w)).faults + if alive && found != Err(Unavailable) then 0 else 1
      ensures alive ==> InHand(w, id) && FoundAs(found, w, id)
      ensures !alive ==> Free(w)
    {
      found := Err(NotFound);
      alive := Resume(w, id);
      if alive {
        var ok: bool := *;
        if !ok {
          found := Err(Unavailable);
        } else if id in state.jobs {
          found := Ok(state.jobs[id]);
        }
        Act(WorkerActor(w), Load(w, ok));
      }
    }

    /** `Store.Update` to running. */
    method UpdateToRunning(w: WorkerId, id: JobId, now: Time) returns (alive: bool, error: Option<StoreError>)
      requires InHand(w, id) && state.workers[w].pc.Loaded? && state.workers[w].pc.at <= now <= state.now
      modifies this
      ensures Extends(old(run), run) && Steady(old(state), state, id)
      ensures Count(w).calls == old(Count(w)).calls && Count(w).deliveries == old(Count(w)).deliveries
      ensures Count(w).faults == old(Count(w)).faults + if alive && error != Some(Unavailable) then 0 else 1
      ensures alive ==> InHand(w, id) && state.workers[w].pc == (if error.Some? then Nacking else Ready)
      ensures alive && error == Some(NotFound) ==> id !in state.jobs
      ensures alive && error.None? ==> id in state.jobs && state.jobs[id].status == Running
      ensures alive && error.None? ==> state.jobs[id].startedAt == Some(now) && state.jobs[id].updatedAt == now
      ensures !alive ==> Free(w)
    {
      error := None;
      alive := Resume(w, id);
      if alive {
        var effect: Effect := *;
        error := if effect != Done then Some(Unavailable) else if id !in state.jobs then Some(NotFound) else None;
        Act(WorkerActor(w), Mark(w, now, effect));
      }
    }

    /** `Processor.Process`: called, and some time later back with a result or an error. */
    method Process(w: WorkerId, id: JobId) returns (alive: bool, outcome: Result<Reply, string>)
      requires InHand(w, id) && state.workers[w].pc == Ready
      modifies this
      ensures Extends(old(run), run) && Steady(old(state), state, id)
      ensures old(Count(w)).calls <= Count(w).calls <= old(Count(w)).calls + 1
      ensures Count(w).deliveries == old(Count(w)).deliveries
      ensures alive ==> Count(w).calls == old(Count(w)).calls + 1
      ensures Count(w).faults == old(Count(w)).faults + if alive then 0 else 1
      ensures alive ==> InHand(w, id) && state.workers[w].pc == Processed(outcome, state.now)
      ensures !alive ==> Free(w)
    {
      outcome := *;
      alive := Resume(w, id);
      if alive {
        Act(WorkerActor(w), CallProcess(w));
        alive := Resume(w, id);
      }
      if alive {
        Act(WorkerActor(w), ReturnProcess(w, outcome));
      }
    }

    /** `Store.Update` with the outcome. */
    method UpdateToTerminal(w: WorkerId, id: JobId, outcome: Result<Reply, string>, completedAt: Time)
      returns (alive: bool, error: Option<StoreError>)
      requires InHand(w, id) && state.workers[w].pc.Processed? && state.workers[w].pc.outcome == outcome
      requires state.workers[w].pc.at <= completedAt <= state.now
      modifies this
      ensures Extends(old(run), run) && Steady(old(state), state, id)
      ensures Count(w).calls == old(Count(w)).calls && Count(w).deliveries == old(Count(w)).deliveries
      ensures Count(w).faults == old(Count(w)).faults + if alive && error != Some(Unavailable) then 0 else 1
      ensures alive ==> InHand(w, id) && state.workers[w].pc == (if error.Some? then Nacking else Acking)
      ensures alive && error == Some(NotFound) ==> id !in state.jobs
      ensures alive && error.None? ==> id in state.jobs && Stores(state.jobs[id], outcome)
      ensures alive && error.None? ==>
        state.jobs[id].completedAt == Some(completedAt) && state.jobs[id].updatedAt == completedAt
      ensures !alive ==> Free(w)
    {
      error := None;
      alive := Resume(w, id);
      if alive {
        var effect: Effect := *;
        error := if effect != Done then Some(Unavailable) else if id !in state.jobs then Some(NotFound) else None;
        Act(WorkerActor(w), Persist(w, completedAt, effect));
      }
    }

    /** `delivery.Ack` or `delivery.Nack`; an error it reports changes nothing for the worker. */
    method Settle(w: WorkerId, id: JobId, ack: bool) returns (ending: Ending)
      requires InHand(w, id) && state.workers[w].pc == (if ack then Acking else Nacking)
      modifies this
      ensures Extends(old(run), run) && Steady(old(state), state, id) && Free(w)
      ensures ending == Acked && Timely(config) ==> Finished(state, id)
      ensures ending == Died || ending == (if ack then Acked else Nacked)
      ensures Count(w).calls == old(Count(w)).calls && Count(w).deliveries == old(Count(w)).deliveries
      ensures Count(w).faults >= old(Count(w)).faults + if ending == Died then 1 else 0
    {
      var alive := Resume(w, id);
      if !alive {
        return Died;
      }
      var applied: bool := *;
      if Timely(config) {
        CoreAlong(config, run, |run.actions|);
      }
      Act(WorkerActor(w), if ack then Ack(w, applied) else Nack(w, applied));
      return if ack then Acked else Nacked;
    }

    // ---------- The scheduler's handle ----------

    /** The store held exactly this outcome of the job at some moment since `from`. */
    ghost predicate Wrote(from: nat, id: JobId, outcome: Result<Reply, string>)
      reads this
    {
      exists k :: from <= k < |run.states| && id in run.states[k].jobs && Stores(run.states[k].jobs[id], outcome)
    }

    /** What an Ack after `Process` means: the outcome was written, and under both hypotheses still stands. */
    ghost predicate Written(from: nat, id: JobId, outcome: Result<Reply, string>)
      reads this
    {
      Wrote(from, id, outcome) && (Disciplined(config) && id in state.jobs ==> Stores(state.jobs[id], outcome))
    }

    /**
     One delivery from load to acknowledgement; `outcome` is what `Process` returned, if it was called and did. The
     worker is idle again; it has called `Process` at most once; an Ack after the call means that exactly its outcome
     was stored; it has given the delivery back only after an operation failed on it or the job was deleted under it;
     and, when workers respect their leases, it has acknowledged only a finished job.
     */
    method Handle(w: WorkerId, id: JobId) returns (ending: Ending, ghost outcome: Option<Result<Reply, string>>)
      requires InHand(w, id) && state.workers[w].pc == Received
      modifies this
      ensures Free(w) && Count(w).deliveries == old(Count(w)).deliveries
      ensures Count(w).calls <= old(Count(w)).calls + 1 && Count(w).faults >= old(Count(w)).faults
      ensures Extends(old(run), run)
      ensures ending == Acked ==> Count(w).calls == old(Count(w)).calls + if outcome.Some? then 1 else 0
      ensures ending == Acked && outcome.Some? ==> Written(old(|run.states|), id, outcome.value)
      ensures ending == Acked && Timely(config) ==> Finished(state, id)
      ensures ending == Nacked ==> id !in state.jobs || Count(w).faults > old(Count(w)).faults
      ensures ending == Died ==> Count(w).faults > old(Count(w)).faults
    {
      outcome := None;
      HeldIsUsed(w, id);
      var alive, found := Get(w, id);
      if !alive {
        ending := Died;
        return;
      }
      if found.Err? {
        ending := Settle(w, id, found == Err(NotFound));
        return;
      }
      var job := found.value;
      if job.status != Queued && job.status != Running {
        ending := Settle(w, id, true);
        return;
      }
      var now := state.now;
      if job.status == Queued {
        var error;
        alive, error := UpdateToRunning(w, id, now);
        if !alive {
          ending := Died;
          return;
        }
        if error.Some? {
          assert error.value == Unavailable || error.value == NotFound;
          ending := Settle(w, id, false);
          return;
        }
      }
      ending, outcome := ProcessAndComplete(w, id);
    }

    /** The second half of `handle`, from the call of `Process` on. */
    method ProcessAndComplete(w: WorkerId, id: JobId)
      returns (ending: Ending, ghost outcome: Option<Result<Reply, string>>)
      requires InHand(w, id) && state.workers[w].pc == Ready && id in state.history.used
      modifies this
      ensures Free(w) && Count(w).deliveries == old(Count(w)).deliveries
      ensures Count(w).calls <= old(Count(w)).calls + 1 && Count(w).faults >= old(Count(w)).faults
      ensures Extends(old(run), run)
      ensures ending == Acked ==> outcome.Some? && Count(w).calls == old(Count(w)).calls + 1
      ensures ending == Acked ==> Written(old(|run.states|), id, outcome.value)
      ensures ending == Acked && Timely(config) ==> Finished(state, id)
      ensures ending == Nacked ==> id !in state.jobs || Count(w).faults > old(Count(w)).faults
      ensures ending == Died ==> Count(w).faults > old(Count(w)).faults
    {
      outcome := None;
      var alive, result := Process(w, id);
      if !alive {
        ending := Died;
        return;
      }
      outcome := Some(result);
      var completedAt := state.now;
      var error;
      alive, error := UpdateToTerminal(w, id, result, completedAt);
      if !alive {
        ending := Died;
        return;
      }
      assert error.Some? ==> error.value == Unavailable || error.value == NotFound;
      ghost var written := run;
      ending := Settle(w, id, error.None?);
      if ending == Acked {
        assert run.states[|written.actions|] == written.states[|written.actions|];
        assert Wrote(old(|run.states|), id, result);
      }
    }

    lemma HeldIsUsed(w: WorkerId, id: JobId)
      requires InHand(w, id)
      ensures id in state.history.used
    {
      DeliveriesAlong(config, run, |run.actions|);
    }

    // ---------- The worker loop ----------

    /** `Queue.Receive`: some available row is leased, or there is none to hand out. */
    method Receive(w: WorkerId) returns (received: Option<JobId>)
      requires Free(w)
      modifies this
      ensures Count(w).calls == old(Count(w)).calls && Count(w).faults == old(Count(w)).faults
      ensures Count(w).deliveries == old(Count(w)).deliveries + if received.Some? then 1 else 0
      ensures received.None? ==> Free(w)
      ensures Extends(old(run), run)
      ensures received.None? ==> NothingAvailable(state)
      ensures received.Some? ==> InHand(w, received.value) && state.workers[w].pc == Received
      ensures received.Some? ==> state.workers[w].deadline == state.now + config.lease
      ensures received.Some? && Timely(config) ==> Alone(w, received.value)
    {
      Interfere(WorkerActor(w));
      received := None;
      var waiting := set id | id in state.queue && LeaseTable.Available(state.queue[id], state.now);
      if waiting != {} {
        var id :| id in waiting;
        Act(WorkerActor(w), Action.Receive(w, id));
        received := Some(id);
        if Timely(config) {
          CoreAlong(config, run, |run.actions|);
        }
      } else {
        assert forall id :: id in state.queue && LeaseTable.Available(state.queue[id], state.now) ==> id in waiting;
      }
    }

    /** No other worker whose lease is running holds the job, and this one holds its row. */
    ghost predicate Alone(w: WorkerId, id: JobId)
      reads this
    {
      && Live(state, w) && HoldsRow(state, w)
      && forall v :: Live(state, v) && state.workers[v].job == id ==> v == w
    }

    /**
     `rounds` turns of the endless loop of `runWorker`. Each either received a delivery and handled it to its ending,
     or found no available row at the moment that `waits` names.
     */
    method RunWorker(w: WorkerId, rounds: nat) returns (ghost handled: seq<Handling>, ghost waits: seq<nat>)
      requires Free(w)
      modifies this
      ensures Free(w) && Extends(old(run), run) && |handled| + |waits| == rounds
      ensures Count(w).deliveries == old(Count(w)).deliveries + |handled|
      ensures Count(w).calls <= old(Count(w)).calls + |handled|
      ensures forall i :: 0 <= i < |waits| ==> WaitedAt(old(|run.states|), waits[i])
    {
      handled, waits := [], [];
      for i := 0 to rounds
        invariant Free(w) && Extends(old(run), run) && |handled| + |waits| == i
        invariant Count(w).deliveries == old(Count(w)).deliveries + |handled|
        invariant Count(w).calls <= old(Count(w)).calls + |handled|
        invariant forall i :: 0 <= i < |waits| ==> WaitedAt(old(|run.states|), waits[i])
      {
        var received := Receive(w);
        if received.Some? {
          var ending, _ := Handle(w, received.value);
          handled := handled + [Handling(received.value, ending)];
        } else {
          waits := waits + [|run.actions|];
        }
      }
    }

    /** At the moment `k`, when the loop was already running, no row was available. */
    ghost predicate WaitedAt(from: nat, k: nat)
      reads this
    {
      from <= k + 1 && k < |run.states| && NothingAvailable(run.states[k])
    }

    // ---------- The REST handler's create ----------

    /**
     One POST with the freshly allocated `id`. Only a 202 makes the job accepted,
     and then, when workers respect their leases, it is in the queue or already
     finished; when a failed Enqueue leaves no row, a 503 has left none. Whatever is
     stored under `id` is the job that was posted.
     */
    method Create(id: JobId, owner: string, request: Request, valid: bool, retention: nat)
      returns (status: HttpStatus)
      requires Valid() && id !in state.history.used
      modifies this
      ensures Valid()
      ensures status == Unprocessable422 <==> !valid
      ensures status == Internal500 <==> valid && (owner == "" || retention == 0)
      ensures id in state.history.accepted <==> status == Accepted202
      ensures id in state.jobs ==> IsPosted(state.jobs[id], id, owner, request, retention)
      ensures id in state.jobs ==> old(state).now <= state.jobs[id].createdAt <= state.now
      ensures status == Accepted202 && Timely(config) ==> id in state.queue || Finished(state, id)
      ensures status == Unavailable503 && config.enqueueClean ==> id !in state.queue
      ensures status == Unavailable503 && config.enqueueClean ==> Orphan(state, id) || MarkedFailed(id)
      ensures status == Unprocessable422 || status == Internal500 ==> state == old(state)
    {
      DeliveriesAlong(config, run, |run.actions|);
      if !valid {
        return Unprocessable422;
      }
      if owner == "" || retention == 0 {
        return Internal500;
      }
      var stored := StoreNew(id, owner, request, retention);
      if !stored {
        return Unavailable503;
      }
      status := EnqueueStored(id);
    }

    /** `jobs.New` and `Store.Create`. */
    method StoreNew(id: JobId, owner: string, request: Request, retention: nat) returns (stored: bool)
      requires Valid() && id !in state.history.used && owner != "" && retention > 0
      modifies this
      ensures Valid() && id in state.history.used && id !in state.history.enqueued && id !in state.history.accepted
      ensures id in state.jobs ==> IsPosted(state.jobs[id], id, owner, request, retention)
      ensures id in state.jobs ==> old(state).now <= state.jobs[id].createdAt <= state.now
      ensures id !in state.queue && (if stored then id in state.posts && state.posts[id].Stored? else Orphan(state, id))
    {
      var createdAt := state.now;
      Interfere(PostActor(id));
      DeliveriesAlong(config, run, |run.actions|);
      var effect: Effect := *;
      Act(PostActor(id), CreateJob(id, owner, request, createdAt, retention, effect));
      DeliveriesAlong(config, run, |run.actions|);
      stored := effect == Done;
    }

    /** `Queue.Enqueue` and the answer. */
    method EnqueueStored(id: JobId) returns (status: HttpStatus)
      requires Valid() && id in state.posts && state.posts[id].Stored? && id in state.history.used
      requires id !in state.history.enqueued && id !in state.history.accepted
      modifies this
      ensures Valid() && Keeps(old(state), state) && old(state).now <= state.now
      ensures status == Accepted202 || status == Unavailable503
      ensures id in state.history.accepted <==> status == Accepted202
      ensures status == Accepted202 && Timely(config) ==> id in state.queue || Finished(state, id)
      ensures status == Unavailable503 && config.enqueueClean ==> id !in state.queue
      ensures status == Unavailable503 && config.enqueueClean ==> Orphan(state, id) || MarkedFailed(id)
    {
      Interfere(PostActor(id));
      var effect: Effect := *;
      if config.enqueueClean && effect == FailedApplied {
        effect := FailedUnapplied;
      }
      Act(PostActor(id), EnqueueJob(id, effect));
      if effect != Done {
        var _, _ := Reject(id);
        return Unavailable503;
      }
      Interfere(PostActor(id));
      Act(PostActor(id), Respond(id));
      if Timely(config) {
        CoreAlong(config, run, |run.actions|);
      }
      return Accepted202;
    }

    /** The record of a job, in what it was posted with. */
    predicate IsPosted(job: Job, id: JobId, owner: string, request: Request, retention: nat) {
      && job.id == id && job.owner == owner && job.request == request
      && job.expiresAt == job.createdAt + retention
    }

    ghost predicate MarkedFailed(id: JobId)
      reads this
    {
      id in state.jobs && state.jobs[id].status == Failed
    }

    /**
     The compensation for a job that could not be queued, with the error that the handler drops. A job still stored
     is failed exactly when the update took effect; otherwise nobody will ever come to it.
     */
    method Reject(id: JobId) returns (error: Option<StoreError>, ghost effect: Effect)
      requires Valid() && id in state.posts && state.posts[id].Refused? && state.posts[id].at == state.now
      requires id !in state.history.accepted && (config.enqueueClean ==> id !in state.history.enqueued)
      modifies this
      ensures Valid() && id !in state.history.accepted && (config.enqueueClean ==> id !in state.queue)
      ensures Keeps(old(state), state) && old(state).now <= state.now
      ensures error.None? ==> MarkedFailed(id) && state.jobs[id].result == None
      ensures error.None? ==> state.jobs[id].error == "job queue unavailable"
      ensures error.None? ==> state.jobs[id].completedAt == Some(old(state).now)
      ensures error == Some(NotFound) ==> id !in state.jobs
      ensures error == Some(Unavailable) <==> effect != Done
      ensures config.enqueueClean && id in state.jobs ==> (state.jobs[id].status == Failed <==> Applied(effect))
      ensures config.enqueueClean ==> Orphan(state, id) || MarkedFailed(id)
    {
      var now := state.now;
      Interfere(PostActor(id));
      var outcome: Effect := *;
      effect := outcome;
      error := if outcome != Done then Some(Unavailable) else if id !in state.jobs then Some(NotFound) else None;
      DeliveriesAlong(config, run, |run.actions|);
      WaitingAlong(config, run, |run.actions|);
      Act(PostActor(id), Compensate(id, now, outcome));
      DeliveriesAlong(config, run, |run.actions|);
    }
  }
}
