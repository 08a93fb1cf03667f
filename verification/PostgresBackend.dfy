/**
 The PostgreSQL backend: a table of job records and a table of leased queue
 rows, each method one SQL statement. The queue half is shown to be a token
 queue as long as no delivery is used at or after its deadline.
 */
module PostgresBackend {
  import opened Wrappers
  import opened Jobs
  import LeaseTable
  import Paging
  import T = TokenQueue

  const DEFAULT_LEASE := 600_000

  datatype Error = NotFound | Duplicate

  /** Of the rows in `among`, one that became available first. */
  lemma {:induction false} EarliestExists(rows: LeaseTable.Rows, among: set<JobId>)
    requires among <= rows.Keys && among != {}
    ensures exists id :: Earliest(rows, among, id)
    decreases among
  {
    var some :| some in among;
    if among == {some} {
      assert Earliest(rows, among, some);
    } else {
      EarliestExists(rows, among - {some});
      var id :| Earliest(rows, among - {some}, id);
      assert Earliest(rows, among, if rows[some].availableAt < rows[id].availableAt then some else id);
    }
  }

  predicate Earliest(rows: LeaseTable.Rows, among: set<JobId>, id: JobId)
    requires among <= rows.Keys
  {
    id in among && forall other :: other in among ==> rows[id].availableAt <= rows[other].availableAt
  }

  /** The row of a new job: the columns the statement does not name are at their defaults. */
  function Inserted(job: Job): Job {
    job.(result := None, error := "", startedAt := None, completedAt := None)
  }

  predicate ReadBack(before: Job, update: Update, after: Job) {
    && (after.status, after.result, after.error, after.updatedAt)
       == (update.status, update.result, update.error, update.updatedAt)
    && (if update.startedAt.Some? then after.startedAt == update.startedAt else after.startedAt == before.startedAt)
    && (if update.completedAt.Some? then after.completedAt == update.completedAt
        else after.completedAt == before.completedAt)
    && (after.id, after.owner, after.request, after.createdAt, after.expiresAt)
       == (before.id, before.owner, before.request, before.createdAt, before.expiresAt)
  }

  type Grants = map<T.Delivery, T.Grant<JobId>>

  /** Every open delivery has its row, leased until its deadline, and shares it with no other. */
  ghost predicate Sound(queue: LeaseTable.Rows, grants: Grants, now: Time) {
    var held := T.Open(grants, now);
    && (forall d :: d in held ==> held[d] in queue && queue[held[d]].lease == Some(grants[d].deadline))
    && (forall d, e :: d in held && e in held && held[d] == held[e] ==> d == e)
  }

  /** Every row is a token, named by its job; every open delivery holds its row. */
  ghost function TokensOf(queue: LeaseTable.Rows, grants: Grants, now: Time): T.Tokens<JobId> {
    T.Tokens(map id | id in queue :: id, T.Open(grants, now))
  }

  lemma LeaseRefines(queue: LeaseTable.Rows, grants: Grants, now: Time, d: T.Delivery, id: JobId, until: Time)
    requires Sound(queue, grants, now) && d !in grants && id in queue
    requires LeaseTable.Available(queue[id], now) && until > now
    ensures Sound(LeaseTable.Lease(queue, id, until), grants[d := T.Grant(id, until)], now)
    ensures T.Refines(TokensOf(queue, grants, now), T.Receive(d, id),
                      TokensOf(LeaseTable.Lease(queue, id, until), grants[d := T.Grant(id, until)], now))
  {
    var held, after := T.Open(grants, now), T.Open(grants[d := T.Grant(id, until)], now);
    assert forall e :: e in held ==> held[e] != id;
    assert after == held[d := id];
  }

  lemma PassingRefines(queue: LeaseTable.Rows, grants: Grants, now: Time, later: Time)
    requires Sound(queue, grants, now) && now <= later
    ensures Sound(queue, grants, later)
    ensures T.Refines(TokensOf(queue, grants, now), T.Lapse(T.Lapsed(grants, now, later)),
                      TokensOf(queue, grants, later))
  {
    T.WaitRefines(map id | id in queue :: id, grants, now, later);
  }

  /** One row has been given a lease, and nothing else has changed. */
  predicate Leased(before: LeaseTable.Rows, id: JobId, until: Time, after: LeaseTable.Rows) {
    && id in before && after.Keys == before.Keys
    && after[id].lease == Some(until) && after[id].availableAt == before[id].availableAt
    && forall other :: other in before && other != id ==> after[other] == before[other]
  }

  class Backend {
    const lease: nat
    var jobs: Store
    var queue: LeaseTable.Rows
    var now: Time
    ghost var grants: map<T.Delivery, T.Grant<JobId>>

    ghost predicate Valid()
      reads this
    {
      lease > 0 && Sound(queue, grants, now)
    }

    ghost function Tokens(): T.Tokens<JobId>
      reads this
    {
      TokensOf(queue, grants, now)
    }

    constructor (lease: int, now: Time)
      ensures Valid() && Tokens() == T.Tokens(map[], map[]) && jobs == map[]
      ensures this.lease == if lease <= 0 then DEFAULT_LEASE else lease
    {
      this.lease := if lease <= 0 then DEFAULT_LEASE else lease;
      this.jobs, this.queue, this.now := map[], map[], now;
      this.grants := map[];
    }

    // ---------- Records ----------

    /** The statement writes seven columns; the others take their defaults. */
    method Create(job: Job) returns (error: Option<Error>)
      modifies this`jobs
      ensures error == if job.id in old(jobs) then Some(Duplicate) else None
      ensures jobs == if job.id in old(jobs) then old(jobs) else old(jobs)[job.id := Inserted(job)]
    {
      if job.id in jobs {
        return Some(Duplicate);
      }
      jobs := jobs[job.id :=
        Job(job.id, job.owner, job.status, job.request, None, "",
            job.createdAt, job.updatedAt, None, None, job.expiresAt)];
      return None;
    }

    method Get(id: JobId) returns (found: Result<Job, Error>)
      ensures found == if id in jobs then Ok(jobs[id]) else Err(NotFound)
    {
      found := if id in jobs then Ok(jobs[id]) else Err(NotFound);
    }

    method Update(id: JobId, update: Update) returns (error: Option<Error>)
      modifies this`jobs
      ensures jobs == UpdateStore(old(jobs), id, update)
      ensures error == if id in old(jobs) then None else Some(NotFound)
    {
      if id !in jobs {
        return Some(NotFound);
      }
      var job := jobs[id];
      job := job.(status := update.status, result := update.result,
                  error := update.error, updatedAt := update.updatedAt);
      if update.startedAt.Some? {
        job := job.(startedAt := update.startedAt);
      }
      if update.completedAt.Some? {
        job := job.(completedAt := update.completedAt);
      }
      jobs := jobs[id := job];
      return None;
    }

    /** Newest first, up to the limit; equal times come out in any order. */
    method List(owner: string, limit: int, before: Time) returns (history: seq<Job>)
      requires Paging.Keyed(jobs)
      ensures Paging.IsPage(jobs, owner, before, if limit > 0 then limit else 20, history)
      ensures if limit > 0 then |history| <= limit else |history| <= 20
    {
      history := [];
      var left := set id | id in jobs && Paging.Matches(jobs[id], owner, before);
      while left != {} && |history| < Paging.Limit(limit)
        invariant |history| <= Paging.Limit(limit) && Paging.Descending(history)
        invariant forall id :: id in left ==> id in jobs && Paging.Matches(jobs[id], owner, before)
        invariant forall i :: 0 <= i < |history| ==> Paging.Listed(jobs, owner, before, history[i])
        invariant forall i :: 0 <= i < |history| ==> history[i].id !in left
        invariant forall i, id :: 0 <= i < |history| && id in left ==> history[i].createdAt >= jobs[id].createdAt
        invariant forall job :: Paging.Listed(jobs, owner, before, job) ==> job.id in left || job in history
        decreases left
      {
        Paging.NewestExists(jobs, left);
        var id :| Paging.Newest(jobs, left, id);
        history := history + [jobs[id]];
        left := left - {id};
      }
    }

    /** A job as `jobs.New` makes it is read back as it was, unless its ID is taken. */
    method CreateThenGet(id: JobId, owner: string, request: Request, created: Time, retention: nat)
      returns (found: Result<Job, Error>)
      modifies this`jobs
      ensures found.Ok? && (id in old(jobs) ==> found.value == old(jobs)[id])
      ensures id !in old(jobs) ==>
        found.value == Job(id, owner, Queued, request, None, "", created, created, None, None, created + retention)
    {
      var _ := Create(NewJob(id, owner, request, created, retention));
      found := Get(id);
    }

    /** What an update set is read back, what it left out is as before, and a missing record stays missing. */
    method UpdateThenGet(id: JobId, update: Update) returns (found: Result<Job, Error>)
      modifies this`jobs
      ensures found.Ok? <==> id in old(jobs)
      ensures found.Ok? ==> ReadBack(old(jobs)[id], update, found.value)
      ensures forall other :: other != id ==> (other in jobs <==> other in old(jobs))
      ensures forall other :: other != id && other in jobs ==> jobs[other] == old(jobs)[other]
    {
      var _ := Update(id, update);
      found := Get(id);
    }

    method DeleteExpired(before: Time) returns (deleted: nat)
      modifies this`jobs
      ensures jobs == Jobs.DeleteExpired(old(jobs), before)
      ensures forall id :: id in jobs <==> id in old(jobs) && old(jobs)[id].expiresAt > before
      ensures forall id :: id in jobs ==> jobs[id] == old(jobs)[id]
      ensures deleted == |old(jobs)| - |jobs|
    {
      var kept := Jobs.DeleteExpired(jobs, before);
      assert kept.Keys <= jobs.Keys;
      assert |jobs.Keys| == |kept.Keys| + |jobs.Keys - kept.Keys|;
      deleted := |jobs.Keys - kept.Keys|;
      jobs := kept;
    }

    // ---------- Queue ----------

    /** `id` was never enqueued before, or its row is gone. */
    method Enqueue(id: JobId)
      requires Valid()
      modifies this`queue, this`grants
      ensures queue == LeaseTable.Enqueue(old(queue), id, now)
      ensures id !in old(queue) ==> Valid() && T.Refines(old(Tokens()), T.Enqueue(id, id), Tokens())
    {
      queue := queue[id := LeaseTable.Row(now, None)];
    }

    /** One poll: the earliest available row is leased, or none is available. */
    method Receive(d: T.Delivery) returns (received: Option<JobId>)
      requires Valid() && d !in grants
      modifies this`queue, this`grants
      ensures Valid()
      ensures received.None? ==> queue == old(queue) && grants == old(grants)
      ensures received.None? ==> forall id :: id in queue ==> !LeaseTable.Available(queue[id], now)
      ensures received.Some? ==> T.Refines(old(Tokens()), T.Receive(d, received.value), Tokens())
      ensures received.Some? ==> received.value in old(queue) && LeaseTable.Available(old(queue)[received.value], now)
      ensures received.Some? ==> Leased(old(queue), received.value, now + lease, queue)
      ensures received.Some? ==> grants == old(grants)[d := T.Grant(received.value, now + lease)]
      ensures received.Some? ==> forall id :: id in old(queue) && LeaseTable.Available(old(queue)[id], now) ==>
        old(queue)[received.value].availableAt <= old(queue)[id].availableAt
    {
      var available := set id | id in queue && LeaseTable.Available(queue[id], now);
      if available == {} {
        assert forall id :: id in queue && LeaseTable.Available(queue[id], now) ==> id in available;
        return None;
      }
      EarliestExists(queue, available);
      var id :| Earliest(queue, available, id);
      LeaseRefines(queue, grants, now, d, id, now + lease);
      queue := LeaseTable.Lease(queue, id, now + lease);
      grants := grants[d := T.Grant(id, now + lease)];
      return Some(id);
    }

    /** However often the others wait and receive: within the lease, none of them gets the job. */
    method ReceiveRepeatedly(d: T.Delivery, waits: seq<nat>, others: seq<T.Delivery>)
      returns (first: Option<JobId>, received: seq<Option<JobId>>)
      requires Valid() && d !in grants && |others| == |waits|
      requires forall i :: 0 <= i < |others| ==> others[i] !in grants && others[i] != d
      requires forall i, k :: 0 <= i < k < |others| ==> others[i] != others[k]
      modifies this`queue, this`grants, this`now
      ensures Valid() && |received| == |waits| && old(now) <= now
      ensures first.Some? && now < old(now) + lease ==>
        (forall i :: 0 <= i < |received| ==> received[i] != first)
        && first.value in queue && !LeaseTable.Available(queue[first.value], now)
    {
      first := Receive(d);
      received := [];
      for n := 0 to |waits|
        invariant Valid() && |received| == n && old(now) <= now
        invariant forall i :: n <= i < |others| ==> others[i] !in grants
        invariant first.Some? && now < old(now) + lease ==>
          first.value in queue && queue[first.value].lease == Some(old(now) + lease)
        invariant first.Some? && now < old(now) + lease ==> forall i :: 0 <= i < n ==> received[i] != first
      {
        Wait(waits[n]);
        var next := Receive(others[n]);
        received := received + [next];
      }
    }

    /** A row is handed out again only when the lease it was handed out with has run out, and then it may be. */
    method ReceiveAgain(d: T.Delivery, wait: nat, e: T.Delivery) returns (first: Option<JobId>, second: Option<JobId>)
      requires Valid() && d !in grants && e !in grants && d != e
      modifies this`queue, this`grants, this`now
      ensures Valid() && now == old(now) + wait
      ensures first.Some? && wait < lease ==> second != first
      ensures first.Some? && wait >= lease ==> second.Some?
    {
      first := Receive(d);
      Wait(wait);
      assert first.Some? ==> (LeaseTable.Available(queue[first.value], now) <==> wait >= lease);
      second := Receive(e);
    }

    /** `Ack` on a delivery before its deadline. */
    method Ack(ghost d: T.Delivery, id: JobId)
      requires Valid() && d in T.Open(grants, now) && grants[d].token == id
      modifies this`queue, this`grants
      ensures Valid() && queue == LeaseTable.Ack(old(queue), id)
      ensures T.Refines(old(Tokens()), T.Ack(d), Tokens())
    {
      queue := queue - {id};
      grants := grants - {d};
    }

    /** `Nack` on a delivery before its deadline: the row is available at once. */
    method Nack(ghost d: T.Delivery, id: JobId)
      requires Valid() && d in T.Open(grants, now) && grants[d].token == id
      modifies this`queue, this`grants
      ensures Valid() && queue == LeaseTable.Nack(old(queue), id, now)
      ensures T.Refines(old(Tokens()), T.Nack(d, id), Tokens())
      ensures LeaseTable.Available(queue[id], now)
    {
      if id in queue {
        queue := queue[id := LeaseTable.Row(now, None)];
      }
      grants := grants - {d};
    }

    /** Time passes, and the deliveries whose deadline it reaches are open no longer. */
    method Wait(time: nat)
      requires Valid()
      modifies this`now
      ensures Valid() && now == old(now) + time
      ensures T.Refines(old(Tokens()), T.Lapse(T.Lapsed(grants, old(now), now)), Tokens())
    {
      PassingRefines(queue, grants, now, now + time);
      now := now + time;
    }
  }
}
