/**
 The queue half of the Redis backend: a stream read through one consumer group.
 Each method is one command or script. It is a token queue as long as no
 delivery is used once it has been idle for `claimIdle`.
 */
module RedisQueue {
  import opened Wrappers
  import opened Jobs
  import T = TokenQueue

  /** Stream entries are numbered in the order they are added. */
  datatype MessageId = MessageId(number: nat)

  type Stream = map<MessageId, JobId>
  type Grants = map<T.Delivery, T.Grant<MessageId>>

  const DEFAULT_CLAIM_IDLE := 600_000

  /** XAUTOCLAIM looks at ten pending entries for each one it may claim. */
  const SCAN_LIMIT := 10

  datatype Message = Message(id: MessageId, job: JobId)

  /** The entries without a job ID, which no delivery is made for. */
  predicate Malformed(job: JobId) {
    job.text == ""
  }

  lemma {:induction false} LeastExists(ids: set<MessageId>)
    requires ids != {}
    ensures exists id :: Least(ids, id)
    decreases ids
  {
    var some :| some in ids;
    if ids == {some} {
      assert Least(ids, some);
    } else {
      LeastExists(ids - {some});
      var id :| Least(ids - {some}, id);
      assert forall other :: other in ids ==> other == some || other in ids - {some};
      assert Least(ids, if some.number < id.number then some else id);
    }
  }

  /** One of the first pending entries, which are all that one call looks at. */
  predicate Scanned(pending: map<MessageId, Time>, m: MessageId) {
    m in pending && |Earlier(pending, m)| < SCAN_LIMIT
  }

  function Earlier(pending: map<MessageId, Time>, m: MessageId): set<MessageId> {
    set k | k in pending && k.number < m.number
  }

  predicate IsIdle(claims: map<MessageId, Time>, m: MessageId, now: Time, claimIdle: nat) {
    m in claims && claims[m] + claimIdle <= now
  }

  /** The entry that XAUTOCLAIM is after: of those looked at, the first that has been idle long enough. */
  ghost predicate FirstIdle(claims: map<MessageId, Time>, m: MessageId, now: Time, claimIdle: nat) {
    && Scanned(claims, m) && claims[m] + claimIdle <= now
    && forall k :: Scanned(claims, k) && claims[k] + claimIdle <= now ==> m.number <= k.number
  }

  ghost predicate NoneIdle(claims: map<MessageId, Time>, now: Time, claimIdle: nat) {
    forall m :: Scanned(claims, m) ==> now < claims[m] + claimIdle
  }

  /** If the first idle entry can be handed out, it is what was received. */
  ghost predicate GivesDue(claims: map<MessageId, Time>, entries: Stream, now: Time, claimIdle: nat,
                           received: Option<Message>) {
    forall m :: FirstIdle(claims, m, now, claimIdle) && m in entries && entries[m].text != "" ==>
      received == Some(Message(m, entries[m]))
  }

  lemma FirstIsDue(claims: map<MessageId, Time>, entries: Stream, now: Time, claimIdle: nat, m: MessageId)
    requires FirstIdle(claims, m, now, claimIdle) && m in entries
    ensures GivesDue(claims, entries, now, claimIdle,
                     if Malformed(entries[m]) then None else Some(Message(m, entries[m])))
  {
    assert forall k :: FirstIdle(claims, k, now, claimIdle) ==> k == m;
  }

  /** Only entries without a job ID have gone, the others are as they were. */
  ghost predicate OnlyMalformedGone(before: Stream, after: Stream) {
    && (forall m :: m in after ==> m in before && after[m] == before[m])
    && (forall m :: m in before && m !in after ==> before[m].text == "")
  }

  /** A well-formed entry, still there and claimed just now. */
  ghost predicate HandedOut(message: Message, before: Stream, after: Stream, claims: map<MessageId, Time>, now: Time) {
    && message.id in before && message.job == before[message.id] && message.job.text != ""
    && message.id in after && message.id in claims && claims[message.id] == now
  }

  lemma SmallerWithout(entries: Stream, m: MessageId)
    ensures m in entries ==> |entries - {m}| < |entries|
  {
    assert (entries - {m}).Keys == entries.Keys - {m};
    assert |entries.Keys| == |entries| && |(entries - {m}).Keys| == |entries - {m}|;
  }

  predicate Least(ids: set<MessageId>, id: MessageId) {
    id in ids && forall other :: other in ids ==> id.number <= other.number
  }

  /** The group has read every entry up to `last`; those not yet acknowledged are pending. */
  ghost predicate Sound(stream: Stream, pending: map<MessageId, Time>, last: nat, top: nat) {
    && last <= top
    && (forall m :: m in stream ==> m.number <= top)
    && (forall m :: m in pending <==> m in stream && m.number <= last)
  }

  /** Every open delivery holds a pending entry, claimed when the delivery was made. */
  ghost predicate Held(pending: map<MessageId, Time>, grants: Grants, now: Time, claimIdle: nat) {
    var held := T.Open(grants, now);
    && (forall d :: d in held ==> held[d] in pending && grants[d].deadline == pending[held[d]] + claimIdle)
    && (forall d, e :: d in held && e in held && held[d] == held[e] ==> d == e)
  }

  ghost function TokensOf(stream: Stream, grants: Grants, now: Time): T.Tokens<MessageId> {
    T.Tokens(stream, T.Open(grants, now))
  }

  /** Handing out an entry that was claimed just now and that no open delivery holds. */
  lemma DeliverRefines(stream: Stream, pending: map<MessageId, Time>, grants: Grants, now: Time, claimIdle: nat,
                       d: T.Delivery, m: MessageId)
    requires Held(pending, grants, now, claimIdle) && d !in grants && claimIdle > 0
    requires m in pending && pending[m] == now && T.IsFree(TokensOf(stream, grants, now), m)
    ensures Held(pending, grants[d := T.Grant(m, now + claimIdle)], now, claimIdle)
    ensures T.Refines(TokensOf(stream, grants, now), T.Receive(d, m),
                      TokensOf(stream, grants[d := T.Grant(m, now + claimIdle)], now))
  {
    assert T.Open(grants[d := T.Grant(m, now + claimIdle)], now) == T.Open(grants, now)[d := m];
  }

  /** Closing a delivery and forgetting its entry leaves the others as they were. */
  lemma CloseKeepsHeld(pending: map<MessageId, Time>, grants: Grants, now: Time, claimIdle: nat, d: T.Delivery)
    requires Held(pending, grants, now, claimIdle) && d in T.Open(grants, now)
    ensures Held(pending - {grants[d].token}, grants - {d}, now, claimIdle)
    ensures T.Open(grants - {d}, now) == T.Open(grants, now) - {d}
  {
  }

  class Queue {
    const claimIdle: nat
    var stream: Stream
    var pending: map<MessageId, Time>
    var last: nat
    var top: nat
    var now: Time
    ghost var grants: Grants

    ghost predicate Valid()
      reads this
    {
      claimIdle > 0 && Sound(stream, pending, last, top) && Held(pending, grants, now, claimIdle)
    }

    ghost function Tokens(): T.Tokens<MessageId>
      reads this
    {
      TokensOf(stream, grants, now)
    }

    constructor (claimIdle: nat, now: Time)
      ensures Valid() && Tokens() == T.Tokens(map[], map[])
      ensures this.claimIdle == if claimIdle == 0 then DEFAULT_CLAIM_IDLE else claimIdle
    {
      this.claimIdle := if claimIdle == 0 then DEFAULT_CLAIM_IDLE else claimIdle;
      this.stream, this.pending, this.last, this.top, this.now := map[], map[], 0, 0, now;
      this.grants := map[];
    }

    /** XADD with a fresh number. */
    method Enqueue(job: JobId)
      requires Valid()
      modifies this`stream, this`top
      ensures Valid() && T.Refines(old(Tokens()), T.Enqueue(MessageId(top), job), Tokens())
    {
      top := top + 1;
      stream := stream[MessageId(top) := job];
    }

    /** A claimed entry is pending since now, and free to be handed out. */
    ghost predicate Claimed(message: Message)
      reads this
    {
      && message.id in stream && message.job == stream[message.id]
      && message.id in pending && pending[message.id] == now
      && T.IsFree(Tokens(), message.id)
    }

    /** XAUTOCLAIM from the start: of the entries looked at, the first that has been idle long enough. */
    method Autoclaim() returns (claimed: Option<Message>)
      requires Valid()
      modifies this`pending
      ensures Valid() && pending.Keys == old(pending).Keys
      ensures claimed.None? ==> pending == old(pending) && NoneIdle(old(pending), now, claimIdle)
      ensures claimed.Some? ==> Claimed(claimed.value) && pending == old(pending)[claimed.value.id := now]
      ensures claimed.Some? ==> FirstIdle(old(pending), claimed.value.id, now, claimIdle)
    {
      var idle := set m | m in pending && Scanned(pending, m) && IsIdle(pending, m, now, claimIdle);
      if idle == {} {
        assert forall m :: Scanned(pending, m) && IsIdle(pending, m, now, claimIdle) ==> m in idle;
        return None;
      }
      LeastExists(idle);
      var m :| Least(idle, m);
      assert forall k :: Scanned(pending, k) && IsIdle(pending, k, now, claimIdle) ==> k in idle;
      pending := pending[m := now];
      return Some(Message(m, stream[m]));
    }

    /** XREADGROUP: the first entry the group has not read. */
    method ReadGroup() returns (read: Option<Message>)
      requires Valid()
      modifies this`pending, this`last
      ensures Valid()
      ensures read.None? ==> pending == old(pending) && last == old(last) && pending.Keys == stream.Keys
      ensures read.Some? ==> Claimed(read.value)
      ensures read.Some? ==> read.value.id !in old(pending) && pending == old(pending)[read.value.id := now]
      ensures read.Some? ==> forall m :: m in stream && m !in old(pending) ==> read.value.id.number <= m.number
    {
      var unread := set m | m in stream && m.number > last;
      if unread == {} {
        assert forall m :: m in stream && m.number > last ==> m in unread;
        return None;
      }
      LeastExists(unread);
      var m :| Least(unread, m);
      assert forall k :: k in stream && last < k.number ==> k in unread;
      last := m.number;
      pending := pending[m := now];
      return Some(Message(m, stream[m]));
    }

    /** The acknowledging script, XACK and XDEL, for an entry no open delivery holds. */
    method Discard(m: MessageId)
      requires Valid() && T.IsFree(Tokens(), m)
      modifies this`stream, this`pending
      ensures Valid() && stream == old(stream) - {m} && pending == old(pending) - {m}
      ensures m in old(stream) ==> |stream| < |old(stream)|
    {
      SmallerWithout(stream, m);
      pending := pending - {m};
      stream := stream - {m};
    }

    /** `reclaim`: hand out the first idle entry; one without a job ID is discarded. */
    method Reclaim(d: T.Delivery) returns (reclaimed: Option<Message>, discarded: bool)
      requires Valid() && d !in grants
      modifies this`stream, this`pending, this`grants
      ensures Valid() && OnlyMalformedGone(old(stream), stream)
      ensures if discarded then |stream| < |old(stream)| else stream == old(stream)
      ensures reclaimed.None? ==> grants == old(grants)
      ensures reclaimed.None? && !discarded ==> NoneIdle(old(pending), now, claimIdle) && pending == old(pending)
      ensures reclaimed.Some? ==> !discarded && HandedOut(reclaimed.value, old(stream), stream, pending, now)
      ensures reclaimed.Some? ==> T.Refines(old(Tokens()), T.Receive(d, reclaimed.value.id), Tokens())
      ensures GivesDue(old(pending), old(stream), now, claimIdle, reclaimed)
    {
      discarded := false;
      reclaimed := Autoclaim();
      if reclaimed.Some? {
        var message := reclaimed.value;
        FirstIsDue(old(pending), stream, now, claimIdle, message.id);
        if Malformed(message.job) {
          Discard(message.id);
          reclaimed, discarded := None, true;
        } else {
          Deliver(d, message);
        }
      }
    }

    ghost method Deliver(d: T.Delivery, message: Message)
      requires Valid() && d !in grants && Claimed(message)
      modifies this`grants
      ensures Valid() && T.Refines(old(Tokens()), T.Receive(d, message.id), Tokens())
    {
      DeliverRefines(stream, pending, grants, now, claimIdle, d, message.id);
      grants := grants[d := T.Grant(message.id, now + claimIdle)];
    }

    /** What one or more turns of the loop of `Receive` come to; `again` if it goes on. */
    ghost predicate Turned(d: T.Delivery, entries: Stream, claims: map<MessageId, Time>, held: Grants,
                           received: Option<Message>, again: bool)
      reads this
    {
      && Valid() && OnlyMalformedGone(entries, stream)
      && (again || received.None? ==> grants == held)
      && (!again && received.None? ==> pending.Keys == stream.Keys && NoneIdle(pending, now, claimIdle))
      && (!again && received.Some? ==>
            && HandedOut(received.value, entries, stream, pending, now)
            && T.Refines(TokensOf(stream, held, now), T.Receive(d, received.value.id), Tokens()))
      && GivesDue(claims, entries, now, claimIdle, if again then None else received)
    }

    /**
     The loop of `Receive`, left when a delivery is made or when every entry
     has been read and none that is looked at is idle.
     */
    method Receive(d: T.Delivery) returns (received: Option<Message>)
      requires Valid() && d !in grants
      modifies this`stream, this`pending, this`last, this`grants
      ensures Valid() && OnlyMalformedGone(old(stream), stream)
      ensures received.None? ==> grants == old(grants) && pending.Keys == stream.Keys
      ensures received.None? ==> NoneIdle(pending, now, claimIdle)
      ensures received.Some? ==> HandedOut(received.value, old(stream), stream, pending, now)
      ensures received.Some? ==>
        T.Refines(TokensOf(stream, old(grants), now), T.Receive(d, received.value.id), Tokens())
      ensures GivesDue(old(pending), old(stream), now, claimIdle, received)
    {
      var again;
      received, again := ReceiveOnce(d);
      while again
        invariant Turned(d, old(stream), old(pending), old(grants), received, again)
        decreases |stream| + if again then 1 else 0
      {
        received, again := ReceiveOnce(d);
      }
    }

    /**
     One turn of the loop of `Receive`: reclaim, else read. `again` after a malformed entry: with it gone there may
     be another to reclaim.
     */
    method ReceiveOnce(d: T.Delivery) returns (received: Option<Message>, again: bool)
      requires Valid() && d !in grants
      modifies this`stream, this`pending, this`last, this`grants
      ensures Turned(d, old(stream), old(pending), old(grants), received, again)
      ensures again ==> |stream| < |old(stream)|
      ensures |stream| <= |old(stream)|
    {
      var discarded;
      received, discarded := Reclaim(d);
      again := false;
      if received.None? {
        received, again := ReadOnce(d);
        again := again || (received.None? && discarded);
      }
    }

    /** The second half of a turn: the first entry not read before; one without a job ID is discarded. */
    method ReadOnce(d: T.Delivery) returns (read: Option<Message>, discarded: bool)
      requires Valid() && d !in grants
      modifies this`stream, this`pending, this`last, this`grants
      ensures Valid() && OnlyMalformedGone(old(stream), stream)
      ensures if discarded then read.None? && |stream| < |old(stream)| else stream == old(stream)
      ensures read.None? ==> grants == old(grants)
      ensures read.None? && !discarded ==> pending == old(pending) && pending.Keys == stream.Keys
      ensures read.Some? ==> HandedOut(read.value, old(stream), stream, pending, now)
      ensures read.Some? ==> T.Refines(old(Tokens()), T.Receive(d, read.value.id), Tokens())
      ensures read.Some? ==> forall m :: m in stream && m !in old(pending) ==> read.value.id.number <= m.number
    {
      discarded := false;
      read := ReadGroup();
      if read.Some? {
        if Malformed(read.value.job) {
          Discard(read.value.id);
          read, discarded := None, true;
        } else {
          Deliver(d, read.value);
        }
      }
    }

    /** `Ack` on a delivery before its deadline. */
    method Ack(ghost d: T.Delivery, m: MessageId)
      requires Valid() && d in T.Open(grants, now) && grants[d].token == m
      modifies this`stream, this`pending, this`grants
      ensures Valid() && T.Refines(old(Tokens()), T.Ack(d), Tokens())
    {
      CloseKeepsHeld(pending, grants, now, claimIdle, d);
      pending := pending - {m};
      stream := stream - {m};
      grants := grants - {d};
    }

    /** `Nack` on a delivery before its deadline: one script takes the entry out and adds it anew. */
    method Nack(ghost d: T.Delivery, message: Message)
      requires Valid() && d in T.Open(grants, now) && grants[d].token == message.id
      requires message.id in stream && stream[message.id] == message.job
      modifies this`stream, this`pending, this`top, this`grants
      ensures Valid() && T.Refines(old(Tokens()), T.Nack(d, MessageId(top)), Tokens())
    {
      CloseKeepsHeld(pending, grants, now, claimIdle, d);
      pending := pending - {message.id};
      stream := stream - {message.id};
      top := top + 1;
      stream := stream[MessageId(top) := message.job];
      grants := grants - {d};
    }

    /** Time passes, and the deliveries whose deadline it reaches are open no longer. */
    method Wait(time: nat)
      requires Valid()
      modifies this`now
      ensures Valid() && now == old(now) + time
      ensures T.Refines(old(Tokens()), T.Lapse(T.Lapsed(grants, old(now), now)), Tokens())
    {
      T.WaitRefines(stream, grants, now, now + time);
      now := now + time;
    }
  }
}
