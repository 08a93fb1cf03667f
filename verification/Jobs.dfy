/**
 The values that travel between the REST handler, the job store, the queue and
 the scheduler: jobs, updates and the rules by which an update changes a job.
 Instants are milliseconds on one clock; instant 0 is Go's zero time.
 */
module Jobs {
  import opened Wrappers

  type Time = nat

  /** A job ID. Only identity matters, so its text is never looked into. */
  datatype JobId = JobId(text: string)

  datatype Status = Queued | Running | Succeeded | Failed

  /** The translation task of a job; a nil glossary is `None`. */
  datatype Translation = Translation(
    source: string,
    targetLanguage: string,
    kind: string,
    sourceLanguage: string,
    glossary: Option<map<string, string>>,
    style: string,
    audience: string,
    attributes: seq<string>,
    delimiters: seq<string>)

  datatype Request = Request(modelCatalog: string, model: string, profile: string, translation: Translation)

  datatype Reply = Reply(
    translation: string,
    model: string,
    finishReason: string,
    promptTokens: int,
    outputTokens: int,
    totalTokens: int)

  datatype Job = Job(
    id: JobId,
    owner: string,
    status: Status,
    request: Request,
    result: Option<Reply>,
    error: string,
    createdAt: Time,
    updatedAt: Time,
    startedAt: Option<Time>,
    completedAt: Option<Time>,
    expiresAt: Time)

  datatype Update = Update(
    status: Status,
    result: Option<Reply>,
    error: string,
    updatedAt: Time,
    startedAt: Option<Time>,
    completedAt: Option<Time>)

  type Store = map<JobId, Job>

  predicate Terminal(status: Status) {
    status == Succeeded || status == Failed
  }

  /** The new value if there is one, else the one stored before (SQL's COALESCE). */
  function Coalesce<T>(given: Option<T>, stored: Option<T>): Option<T> {
    if given.Some? then given else stored
  }

  /** A record as `jobs.New` makes it. */
  function NewJob(id: JobId, owner: string, request: Request, now: Time, retention: nat): Job {
    Job(id, owner, Queued, request, None, "", now, now, None, None, now + retention)
  }

  /** The effect of `Store.Update` on the record it finds. */
  function Apply(job: Job, update: Update): Job {
    job.(status := update.status,
         result := update.result,
         error := update.error,
         updatedAt := update.updatedAt,
         startedAt := Coalesce(update.startedAt, job.startedAt),
         completedAt := Coalesce(update.completedAt, job.completedAt))
  }

  /** `Store.Update` as one statement; a missing ID changes nothing. */
  function UpdateStore(store: Store, id: JobId, update: Update): Store {
    if id in store then store[id := Apply(store[id], update)] else store
  }

  /** `Store.DeleteExpired` as one statement. */
  function DeleteExpired(store: Store, before: Time): Store {
    map id | id in store && store[id].expiresAt > before :: store[id]
  }

  /** The three updates that the scheduler and the REST handler issue. */
  function MarkRunning(now: Time): Update {
    Update(Running, None, "", now, Some(now), None)
  }

  function Complete(outcome: Result<Reply, string>, now: Time): Update {
    match outcome
    case Ok(reply) => Update(Succeeded, Some(reply), "", now, None, Some(now))
    case Err(message) => Update(Failed, None, message, now, None, Some(now))
  }

  function RejectUnqueued(now: Time): Update {
    Update(Failed, None, "job queue unavailable", now, None, Some(now))
  }
}
