/**
 The queue every backend promises: a bag of tokens, one per enqueued job, each
 held by at most one delivery. A delivery is known by its number.
 */
module TokenQueue {
  import opened Jobs

  type Delivery = nat

  /** `jobs`: the job each token stands for. `held`: the token each open delivery holds. */
  datatype Tokens<T(==)> = Tokens(jobs: map<T, JobId>, held: map<Delivery, T>)

  datatype Step<T> =
    | Enqueue(token: T, job: JobId)
    | Receive(delivery: Delivery, token: T)
    | Ack(delivery: Delivery)
    | Nack(delivery: Delivery, renewed: T)
    | Lapse(deliveries: set<Delivery>)

  ghost predicate Valid<T>(q: Tokens<T>) {
    && (forall d :: d in q.held ==> q.held[d] in q.jobs)
    && (forall d, e :: d in q.held && e in q.held && q.held[d] == q.held[e] ==> d == e)
  }

  ghost predicate IsFree<T>(q: Tokens<T>, token: T) {
    token in q.jobs && forall d :: d in q.held ==> q.held[d] != token
  }

  ghost predicate Enabled<T>(q: Tokens<T>, step: Step<T>) {
    match step
    case Enqueue(token, _) => token !in q.jobs
    case Receive(delivery, token) => delivery !in q.held && IsFree(q, token)
    case Ack(delivery) => delivery in q.held && q.held[delivery] in q.jobs
    case Nack(delivery, renewed) =>
      delivery in q.held && q.held[delivery] in q.jobs && (renewed !in q.jobs || renewed == q.held[delivery])
    case Lapse(deliveries) => deliveries <= q.held.Keys
  }

  ghost function Next<T>(q: Tokens<T>, step: Step<T>): Tokens<T>
    requires Enabled(q, step)
  {
    match step
    case Enqueue(token, job) => q.(jobs := q.jobs[token := job])
    case Receive(delivery, token) => q.(held := q.held[delivery := token])
    case Ack(delivery) => Tokens(q.jobs - {q.held[delivery]}, q.held - {delivery})
    case Nack(delivery, renewed) =>
      Tokens((q.jobs - {q.held[delivery]})[renewed := q.jobs[q.held[delivery]]], q.held - {delivery})
    case Lapse(deliveries) => q.(held := q.held - deliveries)
  }

  /** The tokens that stand for one job. */
  ghost function TokensFor<T>(q: Tokens<T>, job: JobId): set<T> {
    set token | token in q.jobs && q.jobs[token] == job
  }

  ghost predicate Adds<T>(step: Step<T>, job: JobId) {
    step.Enqueue? && step.job == job
  }

  ghost predicate Removes<T>(q: Tokens<T>, step: Step<T>, job: JobId) {
    step.Ack? && step.delivery in q.held && q.held[step.delivery] in TokensFor(q, job)
  }

  lemma StepKeepsValid<T>(q: Tokens<T>, step: Step<T>)
    requires Valid(q) && Enabled(q, step)
    ensures Valid(Next(q, step))
  {
  }

  /** The token a step brings in for a job, and the one it takes away. */
  ghost function Gain<T>(q: Tokens<T>, step: Step<T>, job: JobId): set<T>
    requires Enabled(q, step)
  {
    if Adds(step, job) then {step.token}
    else if step.Nack? && q.held[step.delivery] in TokensFor(q, job) then {step.renewed}
    else {}
  }

  ghost function Loss<T>(q: Tokens<T>, step: Step<T>, job: JobId): set<T>
    requires Enabled(q, step)
  {
    if (step.Ack? || step.Nack?) && q.held[step.delivery] in TokensFor(q, job) then {q.held[step.delivery]} else {}
  }

  lemma TokensAfter<T>(q: Tokens<T>, step: Step<T>, job: JobId)
    requires Enabled(q, step)
    ensures TokensFor(Next(q, step), job) == TokensFor(q, job) - Loss(q, step, job) + Gain(q, step, job)
  {
  }

  /** Only Enqueue adds a token and only Ack takes one away, whatever else happens. */
  lemma StepConserves<T>(q: Tokens<T>, step: Step<T>, job: JobId)
    requires Enabled(q, step)
    ensures |TokensFor(Next(q, step), job)|
         == |TokensFor(q, job)| + (if Adds(step, job) then 1 else 0) - (if Removes(q, step, job) then 1 else 0)
  {
    TokensAfter(q, step, job);
    var before, loss, gain := TokensFor(q, job), Loss(q, step, job), Gain(q, step, job);
    assert loss <= before && gain !! before - loss;
    assert |before - loss + gain| == |before - loss| + |gain|;
    assert |before - loss| == |before| - |loss|;
  }

  /** The states a sequence of steps goes through. */
  ghost predicate Path<T>(states: seq<Tokens<T>>, steps: seq<Step<T>>) {
    && |states| == |steps| + 1
    && Valid(states[0])
    && forall i {:trigger steps[i]} :: 0 <= i < |steps| ==>
         Enabled(states[i], steps[i]) && states[i + 1] == Next(states[i], steps[i])
  }

  /** What was enqueued and not acknowledged along a path, as a balance for one job. */
  ghost function Balance<T>(states: seq<Tokens<T>>, steps: seq<Step<T>>, job: JobId): int
    requires |states| == |steps| + 1
    decreases |steps|
  {
    if steps == [] then |TokensFor(states[0], job)| else
      var n := |steps| - 1;
      Balance(states[..n + 1], steps[..n], job)
      + (if Adds(steps[n], job) then 1 else 0) - (if Removes(states[n], steps[n], job) then 1 else 0)
  }

  /** At-least-once: a job has exactly as many tokens as it was enqueued and not yet acknowledged. */
  lemma {:induction false} PathConserves<T>(states: seq<Tokens<T>>, steps: seq<Step<T>>, job: JobId)
    requires Path(states, steps)
    ensures Valid(states[|steps|]) && |TokensFor(states[|steps|], job)| == Balance(states, steps, job)
    decreases |steps|
  {
    if steps != [] {
      var n := |steps| - 1;
      var before, front := states[..n + 1], steps[..n];
      assert forall i {:trigger front[i]} :: 0 <= i < n ==> front[i] == steps[i];
      PathConserves(before, front, job);
      StepKeepsValid(states[n], steps[n]);
      StepConserves(states[n], steps[n], job);
    }
  }

  // ---------- Deliveries with a deadline ----------

  /** What a backend hands out: a token, and the instant at which it may be handed out again. */
  datatype Grant<T> = Grant(token: T, deadline: Time)

  /** The deliveries still open: a worker acts on one only before its deadline. */
  function Open<T>(grants: map<Delivery, Grant<T>>, now: Time): map<Delivery, T> {
    map d | d in grants && now < grants[d].deadline :: grants[d].token
  }

  ghost predicate Refines<T>(before: Tokens<T>, step: Step<T>, after: Tokens<T>) {
    Enabled(before, step) && after == Next(before, step)
  }

  ghost function Lapsed<T>(grants: map<Delivery, Grant<T>>, now: Time, later: Time): set<Delivery> {
    set d | d in grants && now < grants[d].deadline <= later
  }

  lemma WaitRefines<T>(jobs: map<T, JobId>, grants: map<Delivery, Grant<T>>, now: Time, later: Time)
    requires now <= later
    ensures Refines(Tokens(jobs, Open(grants, now)), Lapse(Lapsed(grants, now, later)),
                    Tokens(jobs, Open(grants, later)))
  {
    assert Lapsed(grants, now, later) <= Open(grants, now).Keys;
    assert Open(grants, later) == Open(grants, now) - Lapsed(grants, now, later);
  }
}
