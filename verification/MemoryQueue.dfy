/**
 The queue half of the in-memory backend: a bounded channel of job IDs. Without
 crashes it is a token queue exactly as long as no Nack is cancelled: a cancelled
 one may lose its token, and on a full channel it does.
 */
module MemoryQueue {
  import opened Wrappers
  import opened Jobs
  import T = TokenQueue

  const DEFAULT_CAPACITY := 1024

  /** Tokens are numbered in the order they enter the channel for the first time. */
  datatype TokenId = TokenId(number: nat)

  datatype Error = Cancelled

  /** What `select` may do: send or receive if that can proceed, give up if the context is done. */
  predicate MayYield(blocked: bool, cancelled: bool, error: Option<Error>) {
    if error.None? then !blocked else cancelled
  }

  /**
   The waiting tokens and the open deliveries share out all tokens among them;
   `waiting` names the tokens of `queue` in order.
   */
  ghost predicate Sound(queue: seq<JobId>, waiting: seq<TokenId>, q: T.Tokens<TokenId>) {
    && |waiting| == |queue|
    && (forall i :: 0 <= i < |queue| ==> waiting[i] in q.jobs && q.jobs[waiting[i]] == queue[i])
    && (forall i, k :: 0 <= i < k < |waiting| ==> waiting[i] != waiting[k])
    && (forall d :: d in q.held ==> q.held[d] in q.jobs && q.held[d] !in waiting)
    && (forall d, e :: d in q.held && e in q.held && q.held[d] == q.held[e] ==> d == e)
    && (forall token :: token in q.jobs ==> token in waiting || IsHeld(q, token))
  }

  ghost predicate IsHeld(q: T.Tokens<TokenId>, token: TokenId) {
    exists d :: d in q.held && q.held[d] == token
  }

  lemma TakeSound(queue: seq<JobId>, waiting: seq<TokenId>, q: T.Tokens<TokenId>, d: T.Delivery)
    requires Sound(queue, waiting, q) && queue != [] && d !in q.held
    ensures T.Enabled(q, T.Receive(d, waiting[0]))
    ensures Sound(queue[1..], waiting[1..], T.Next(q, T.Receive(d, waiting[0])))
  {
    var r := T.Next(q, T.Receive(d, waiting[0]));
    forall token | token in r.jobs ensures token in waiting[1..] || IsHeld(r, token) {
      if token == waiting[0] {
        assert r.held[d] == token;
      } else if IsHeld(q, token) {
        var e :| e in q.held && q.held[e] == token;
        assert r.held[e] == token;
      } else {
        var i :| 0 <= i < |waiting| && waiting[i] == token;
        assert waiting[1..][i - 1] == token;
      }
    }
  }

  lemma AckSound(queue: seq<JobId>, waiting: seq<TokenId>, q: T.Tokens<TokenId>, d: T.Delivery)
    requires Sound(queue, waiting, q) && d in q.held
    ensures T.Enabled(q, T.Ack(d)) && Sound(queue, waiting, T.Next(q, T.Ack(d)))
  {
    var r := T.Next(q, T.Ack(d));
    forall token | token in r.jobs ensures token in waiting || IsHeld(r, token) {
      if token !in waiting {
        var e :| e in q.held && q.held[e] == token;
        assert r.held[e] == token;
      }
    }
  }

  // ---------- A Nack that may be cancelled ----------

  /** What a Nack amounts to: its token renewed, or gone as if acknowledged. */
  function NackStep(d: T.Delivery, renewed: TokenId, error: Option<Error>): T.Step<TokenId> {
    if error.None? then T.Nack(d, renewed) else T.Ack(d)
  }

  /** Whatever `select` does, the job has as many tokens after the Nack as before. */
  ghost predicate AlwaysKept(q: T.Tokens<TokenId>, d: T.Delivery, renewed: TokenId, full: bool, cancelled: bool)
    requires d in q.held && q.held[d] in q.jobs && renewed !in q.jobs
  {
    forall error :: MayYield(full, cancelled, error) ==>
      Kept(q, NackStep(d, renewed, error), q.jobs[q.held[d]])
  }

  ghost predicate Kept(q: T.Tokens<TokenId>, step: T.Step<TokenId>, job: JobId)
    requires T.Enabled(q, step)
  {
    |T.TokensFor(T.Next(q, step), job)| == |T.TokensFor(q, job)|
  }

  /** A Nack keeps its token for certain exactly when its context is not done. */
  lemma NackKeepsExactly(q: T.Tokens<TokenId>, d: T.Delivery, renewed: TokenId, full: bool, cancelled: bool)
    requires d in q.held && q.held[d] in q.jobs && renewed !in q.jobs
    ensures AlwaysKept(q, d, renewed, full, cancelled) <==> !cancelled
  {
    var job := q.jobs[q.held[d]];
    T.StepConserves(q, T.Nack(d, renewed), job);
    T.StepConserves(q, T.Ack(d), job);
    assert Kept(q, NackStep(d, renewed, None), job);
    assert !Kept(q, NackStep(d, renewed, Some(Cancelled)), job);
    assert cancelled ==> MayYield(full, cancelled, Some(Cancelled));
  }

  /** One job is received, another fills the channel, and the Nack of the first is cancelled: its token is gone. */
  method FullChannelLoses(first: JobId, second: JobId) returns (q: Queue)
    requires first != second
    ensures q.Valid() && q.queue == [second] && q.tokens.held == map[]
    ensures T.TokensFor(q.tokens, first) == {}
  {
    q := new Queue(1);
    var error := q.Enqueue(first, false);
    var received := q.Receive(0, false);
    error := q.Enqueue(second, false);
    error := q.Nack(0, first, true);
  }

  class Queue {
    const capacity: nat
    var queue: seq<JobId>
    ghost var waiting: seq<TokenId>
    ghost var tokens: T.Tokens<TokenId>
    ghost var top: nat

    ghost predicate Valid()
      reads this
    {
      && capacity > 0 && |queue| <= capacity && Sound(queue, waiting, tokens)
      && forall token :: token in tokens.jobs ==> token.number < top
    }

    constructor (capacity: int)
      ensures Valid() && queue == [] && tokens == T.Tokens(map[], map[])
      ensures this.capacity == if capacity <= 0 then DEFAULT_CAPACITY else capacity
    {
      this.capacity := if capacity <= 0 then DEFAULT_CAPACITY else capacity;
      queue, waiting, tokens, top := [], [], T.Tokens(map[], map[]), 0;
    }

    /** Sending blocks while the channel is full, so it needs room or a cancelled context. */
    method Enqueue(job: JobId, cancelled: bool) returns (error: Option<Error>)
      requires Valid() && (|queue| < capacity || cancelled)
      modifies this
      ensures Valid() && MayYield(|old(queue)| == capacity, cancelled, error)
      ensures error.None? ==> queue == old(queue) + [job]
      ensures error.None? ==> T.Refines(old(tokens), T.Enqueue(TokenId(old(top)), job), tokens)
      ensures error.Some? ==> queue == old(queue) && tokens == old(tokens)
    {
      var full := |queue| == capacity;
      assert MayYield(full, cancelled, if cancelled then Some(Cancelled) else None);
      error :| MayYield(full, cancelled, error);
      assert MayYield(full, cancelled, error);
      if error.Some? {
        return;
      }
      assert forall token :: IsHeld(tokens, token) ==>
          IsHeld(tokens.(jobs := tokens.jobs[TokenId(top) := job]), token);
      queue := queue + [job];
      waiting := waiting + [TokenId(top)];
      tokens := tokens.(jobs := tokens.jobs[TokenId(top) := job]);
      top := top + 1;
    }

    /** Receiving blocks while the channel is empty; jobs come out in the order they went in. */
    method Receive(ghost d: T.Delivery, cancelled: bool) returns (received: Result<JobId, Error>)
      requires Valid() && d !in tokens.held && (queue != [] || cancelled)
      modifies this
      ensures Valid()
      ensures MayYield(old(queue) == [], cancelled, if received.Ok? then None else Some(received.error))
      ensures received.Ok? ==> old(queue) == [received.value] + queue
      ensures received.Ok? ==> T.Refines(old(tokens), T.Receive(d, old(waiting)[0]), tokens)
      ensures received.Err? ==> queue == old(queue) && tokens == old(tokens)
    {
      var error, empty := None, queue == [];
      assert MayYield(empty, cancelled, if cancelled then Some(Cancelled) else None);
      error :| MayYield(empty, cancelled, error);
      assert MayYield(empty, cancelled, error);
      if error.Some? {
        return Err(error.value);
      }
      var job := queue[0];
      TakeSound(queue, waiting, tokens, d);
      tokens := T.Next(tokens, T.Receive(d, waiting[0]));
      queue, waiting := queue[1..], waiting[1..];
      return Ok(job);
    }

    /** Nothing is left to remove from the channel. */
    method Ack(ghost d: T.Delivery)
      requires Valid() && d in tokens.held
      modifies this`tokens
      ensures Valid() && T.Refines(old(tokens), T.Ack(d), tokens)
    {
      AckSound(queue, waiting, tokens, d);
      tokens := T.Next(tokens, T.Ack(d));
    }

    /** The job is sent again; if that is cancelled its token is gone. */
    method Nack(ghost d: T.Delivery, job: JobId, cancelled: bool) returns (error: Option<Error>)
      requires Valid() && d in tokens.held && tokens.jobs[tokens.held[d]] == job
      requires |queue| < capacity || cancelled
      modifies this
      ensures Valid() && MayYield(|old(queue)| == capacity, cancelled, error)
      ensures error.None? ==> queue == old(queue) + [job]
      ensures error.None? ==> T.Refines(old(tokens), T.Nack(d, TokenId(old(top))), tokens)
      ensures error.Some? ==> queue == old(queue) && T.Refines(old(tokens), T.Ack(d), tokens)
      ensures T.Enabled(old(tokens), NackStep(d, TokenId(old(top)), error))
      ensures tokens == T.Next(old(tokens), NackStep(d, TokenId(old(top)), error))
    {
      AckSound(queue, waiting, tokens, d);
      tokens := T.Next(tokens, T.Ack(d));
      error := Enqueue(job, cancelled);
    }
  }
}
