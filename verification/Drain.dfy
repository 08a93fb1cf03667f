/**
 Without new POSTs and without faults the queue empties: every step of a worker
 and of a handler still at work lowers a weight, deletions and the clock never
 raise it, and as long as anything is left somebody can take a step.
 */
module Drain {
  import opened Wrappers
  import opened Jobs
  import opened Protocol
  import opened Invariants
  import opened Accounting
  import LeaseTable

  // ---------- The weight of a queue ----------

  ghost predicate IsHolder(s: State, w: WorkerId, id: JobId) {
    Live(s, w) && s.workers[w].job == id
  }

  /** Steps left for a row no live worker holds. */
  ghost function FreeWeight(finished: bool): nat {
    if finished then 3 else 10
  }

  /** Steps left for a row whose holder is at `pc`, should the job be deleted at the worst moment. */
  ghost function HeldWeight(pc: Pc, finished: bool): nat {
    match pc
    case Received => if finished then 2 else 9
    case Loaded(_, _) => 8
    case Ready => 7
    case Processing => 6
    case Processed(_, _) => 5
    case Acking => 1
    case Nacking => if finished then 4 else 11
  }

  ghost function RowWeight(s: State, id: JobId): nat {
    if id !in s.queue then 0
    else if w :| IsHolder(s, w, id) then HeldWeight(s.workers[w].pc, Finished(s, id))
    else FreeWeight(Finished(s, id))
  }

  /** Steps left for a POST; one that is stored will still bring in a row. */
  ghost function PostWeight(s: State, id: JobId): nat {
    if id !in s.posts then 0 else if s.posts[id].Stored? then 12 else 1
  }

  ghost function Weight(s: State, id: JobId): nat {
    RowWeight(s, id) + PostWeight(s, id)
  }

  /** The jobs that somebody still has to do something about. */
  ghost function Open(s: State): set<JobId> {
    s.queue.Keys + s.posts.Keys
  }

  ghost function Weights(s: State): map<JobId, nat> {
    map id | id in Open(s) :: Weight(s, id)
  }

  ghost function Total(m: map<JobId, nat>): nat {
    if m == map[] then 0 else
      var id :| id in m;
      m[id] + Total(m - {id})
  }

  ghost function Measure(s: State): nat {
    Total(Weights(s))
  }

  lemma {:induction false} TotalSplit(m: map<JobId, nat>, id: JobId)
    requires id in m
    ensures Total(m) == m[id] + Total(m - {id})
    decreases m
  {
    var first :| id in m && first in m && Total(m) == m[first] + Total(m - {first});
    if first != id {
      TotalSplit(m - {first}, id);
      TotalSplit(m - {id}, first);
      assert m - {first} - {id} == m - {id} - {first};
    }
  }

  lemma {:induction false} TotalMono(m: map<JobId, nat>, n: map<JobId, nat>)
    requires m.Keys == n.Keys && forall id :: id in m ==> m[id] <= n[id]
    ensures Total(m) <= Total(n)
    decreases m
  {
    if m != map[] {
      var id :| id in m;
      TotalSplit(m, id);
      TotalSplit(n, id);
      TotalMono(m - {id}, n - {id});
    } else {
      assert n == map[];
    }
  }

  lemma WeightOf(s: State, w: WorkerId)
    requires Leases(s) && Live(s, w)
    ensures RowWeight(s, s.workers[w].job) == HeldWeight(s.workers[w].pc, Finished(s, s.workers[w].job))
  {
    assert IsHolder(s, w, s.workers[w].job) && HoldsRow(s, w);
  }

  // ---------- Quiet steps ----------

  predicate IsPostStep(a: Action) {
    a.EnqueueJob? || a.Compensate? || a.Respond? || a.DropPost?
  }

  /** A step of a worker or of the handler of a POST. */
  predicate IsMove(a: Action) {
    a.Receive? || IsBusyAction(a) || IsPostStep(a)
  }

  /** No new POST comes in, no worker meets a fault, and no lease runs out under a live worker. */
  ghost predicate Quiet(c: Config, s: State, a: Action) {
    Enabled(c, s, a) && !a.CreateJob? && !IsFault(a) && NoLapse(s, Next(c, s, a))
  }

  /** The job a move is about. */
  function Subject(s: State, a: Action): JobId
    requires IsMove(a) && (IsBusyAction(a) ==> IsBusy(s, a.w))
  {
    if IsBusyAction(a) then s.workers[a.w].job else a.id
  }

  lemma SameHolder(c: Config, s: State, a: Action, id: JobId)
    requires Quiet(c, s, a) && (IsMove(a) ==> id != Subject(s, a))
    ensures forall w :: IsHolder(Next(c, s, a), w, id) <==> IsHolder(s, w, id)
    ensures forall w :: IsHolder(s, w, id) ==> Next(c, s, a).workers[w] == s.workers[w]
  {
  }

  lemma SameElsewhere(c: Config, s: State, a: Action, id: JobId)
    requires Quiet(c, s, a) && (IsMove(a) ==> id != Subject(s, a))
    ensures id in Next(c, s, a).queue <==> id in s.queue
    ensures PostWeight(Next(c, s, a), id) == PostWeight(s, id)
    ensures id in Next(c, s, a).posts <==> id in s.posts
  {
  }

  lemma FinishedElsewhere(c: Config, s: State, a: Action, id: JobId)
    requires Quiet(c, s, a) && (IsMove(a) ==> id != Subject(s, a))
    ensures Finished(s, id) ==> Finished(Next(c, s, a), id)
  {
  }

  lemma SameHolderWeight(s: State, t: State, id: JobId)
    requires Leases(s) && Leases(t) && (Finished(s, id) ==> Finished(t, id))
    requires id in t.queue <==> id in s.queue
    requires forall w :: IsHolder(t, w, id) <==> IsHolder(s, w, id)
    requires forall w :: IsHolder(s, w, id) ==> w in t.workers && t.workers[w] == s.workers[w]
    ensures RowWeight(t, id) <= RowWeight(s, id)
  {
    if w :| IsHolder(s, w, id) {
      WeightOf(s, w);
      WeightOf(t, w);
    }
  }

  /** What a quiet step is not about does not get heavier. */
  lemma OthersNotHeavier(c: Config, s: State, a: Action, t: State, id: JobId)
    requires Timely(c) && Ids(s) && Leases(s) && Quiet(c, s, a) && t == Next(c, s, a)
    requires IsMove(a) ==> id != Subject(s, a)
    ensures (id in Open(t) <==> id in Open(s)) && Weight(t, id) <= Weight(s, id)
  {
    LeasesStep(c, s, a);
    SameHolder(c, s, a, id);
    SameElsewhere(c, s, a, id);
    FinishedElsewhere(c, s, a, id);
    SameHolderWeight(s, t, id);
  }

  lemma ReceiveLighter(c: Config, s: State, a: Action)
    requires Timely(c) && Ids(s) && Leases(s) && Quiet(c, s, a) && a.Receive?
    ensures RowWeight(Next(c, s, a), a.id) < RowWeight(s, a.id)
  {
    LeasesStep(c, s, a);
    AvailableIsFree(s, a.id);
    assert forall w :: !IsHolder(s, w, a.id);
    WeightOf(Next(c, s, a), a.w);
  }

  /** A quiet step of a worker inside `handle` brings it nearer to the end. */
  lemma PcLighter(c: Config, s: State, a: Action)
    requires Timely(c) && Outcomes(s) && Quiet(c, s, a) && IsBusyAction(a)
    ensures var t, id := Next(c, s, a), s.workers[a.w].job;
      if a.Ack? then t.queue == LeaseTable.Ack(s.queue, id)
      else if a.Nack? then t.workers[a.w].Idle? && Finished(t, id) == Finished(s, id) && s.workers[a.w].pc == Nacking
      else Live(t, a.w) && t.workers[a.w].job == id
           && HeldWeight(t.workers[a.w].pc, Finished(t, id)) < HeldWeight(s.workers[a.w].pc, Finished(s, id))
  {
    assert Live(s, a.w);
  }

  lemma HandleLighter(c: Config, s: State, a: Action)
    requires Timely(c) && Ids(s) && Leases(s) && Outcomes(s) && Quiet(c, s, a) && IsBusyAction(a)
    ensures RowWeight(Next(c, s, a), s.workers[a.w].job) < RowWeight(s, s.workers[a.w].job)
  {
    var t, id := Next(c, s, a), s.workers[a.w].job;
    assert Live(s, a.w) && HoldsRow(s, a.w);
    WeightOf(s, a.w);
    PcLighter(c, s, a);
    if a.Nack? {
      assert forall w :: IsHolder(t, w, id) ==> Live(s, w);
    } else if !a.Ack? {
      LeasesStep(c, s, a);
      WeightOf(t, a.w);
    }
  }

  lemma KeepsPosts(c: Config, s: State, a: Action)
    requires Quiet(c, s, a) && !IsPostStep(a)
    ensures Next(c, s, a).posts == s.posts
  {
  }

  lemma NoRowNoHolder(s: State, id: JobId)
    requires Leases(s) && id !in s.queue
    ensures forall w :: !IsHolder(s, w, id)
  {
    forall w ensures !IsHolder(s, w, id) {
      if Live(s, w) {
        assert HoldsRow(s, w);
      }
    }
  }

  /** The handler's steps: enqueuing turns a heavy POST into a row, every other one ends the POST. */
  lemma PostLighter(c: Config, s: State, a: Action)
    requires Timely(c) && Ids(s) && Leases(s) && Quiet(c, s, a) && IsPostStep(a)
    ensures Weight(Next(c, s, a), a.id) < Weight(s, a.id)
  {
    var t := Next(c, s, a);
    if a.EnqueueJob? {
      assert a.id !in s.queue && t.workers == s.workers;
      NoRowNoHolder(s, a.id);
      assert forall w :: !IsHolder(t, w, a.id);
    } else {
      LeasesStep(c, s, a);
      SameHolderWeight(s, t, a.id);
    }
  }

  lemma SubjectLighter(c: Config, s: State, a: Action)
    requires Timely(c) && Ids(s) && Leases(s) && Outcomes(s) && Quiet(c, s, a) && IsMove(a)
    ensures Weight(Next(c, s, a), Subject(s, a)) < Weight(s, Subject(s, a))
  {
    if IsPostStep(a) {
      PostLighter(c, s, a);
    } else {
      KeepsPosts(c, s, a);
      if a.Receive? {
        ReceiveLighter(c, s, a);
      } else {
        HandleLighter(c, s, a);
      }
    }
  }

  /** The total of `m` against that of `n` when every entry but one is no larger, and that one smaller or gone. */
  lemma TotalDrops(m: map<JobId, nat>, n: map<JobId, nat>, id: JobId)
    requires id in n && m.Keys - {id} == n.Keys - {id} && 0 < n[id]
    requires forall x :: x in m && x != id ==> x in n && m[x] <= n[x]
    requires id in m ==> m[id] < n[id]
    ensures Total(m) < Total(n)
  {
    assert (m - {id}).Keys == m.Keys - {id} && (n - {id}).Keys == n.Keys - {id};
    TotalMono(m - {id}, n - {id});
    TotalSplit(n, id);
    if id in m {
      TotalSplit(m, id);
    } else {
      assert m - {id} == m;
    }
  }

  lemma WeightIsOpen(s: State, id: JobId)
    ensures Weight(s, id) > 0 <==> id in Open(s)
  {
  }

  lemma MeasureDrops(s: State, t: State, id: JobId)
    requires forall x :: x != id ==> (x in Open(t) <==> x in Open(s)) && Weight(t, x) <= Weight(s, x)
    requires Weight(t, id) < Weight(s, id)
    ensures Measure(t) < Measure(s)
  {
    WeightIsOpen(s, id);
    assert Weights(t).Keys == Open(t) && Weights(s).Keys == Open(s);
    assert Open(t) - {id} == Open(s) - {id};
    TotalDrops(Weights(t), Weights(s), id);
  }

  lemma MeasureKeeps(s: State, t: State)
    requires forall x :: (x in Open(t) <==> x in Open(s)) && Weight(t, x) <= Weight(s, x)
    ensures Measure(t) <= Measure(s)
  {
    assert Weights(t).Keys == Open(t) && Weights(s).Keys == Open(s);
    assert Open(t) == Open(s);
    TotalMono(Weights(t), Weights(s));
  }

  lemma QuietLowers(c: Config, s: State, a: Action)
    requires Timely(c) && Core(s) && Quiet(c, s, a)
    ensures Measure(Next(c, s, a)) + (if IsMove(a) then 1 else 0) <= Measure(s)
  {
    var t := Next(c, s, a);
    forall x | IsMove(a) ==> x != Subject(s, a)
      ensures (x in Open(t) <==> x in Open(s)) && Weight(t, x) <= Weight(s, x)
    {
      OthersNotHeavier(c, s, a, t, x);
    }
    if IsMove(a) {
      SubjectLighter(c, s, a);
      MeasureDrops(s, t, Subject(s, a));
    } else {
      MeasureKeeps(s, t);
    }
  }

  // ---------- Quiet runs ----------

  ghost predicate QuietRun(c: Config, r: Run) {
    && Follows(c, r)
    && forall i {:trigger r.actions[i]} :: 0 <= i < |r.actions| ==> Quiet(c, r.states[i], r.actions[i])
  }

  ghost function Moves(actions: seq<Action>): nat {
    if actions == [] then 0 else
      Moves(actions[..|actions| - 1]) + if IsMove(actions[|actions| - 1]) then 1 else 0
  }

  /** A quiet run makes at most as many moves as the measure it starts with. */
  lemma {:induction false} DrainBound(c: Config, r: Run)
    requires Timely(c) && QuietRun(c, r) && Core(r.states[0])
    ensures Moves(r.actions) + Measure(r.states[|r.actions|]) <= Measure(r.states[0])
    decreases |r.actions|
  {
    var n := |r.actions|;
    if n > 0 {
      FrontQuiet(c, r);
      FrontMoves(r);
      DrainBound(c, Front(r));
      CoreFollows(c, r, n - 1);
      LastLowers(c, r);
    }
  }

  lemma FrontMoves(r: Run)
    requires |r.actions| > 0 && |r.states| == |r.actions| + 1
    ensures |Front(r).actions| == |r.actions| - 1 && Front(r).states[0] == r.states[0]
    ensures Front(r).states[|r.actions| - 1] == r.states[|r.actions| - 1]
    ensures Moves(r.actions) == Moves(Front(r).actions) + if IsMove(r.actions[|r.actions| - 1]) then 1 else 0
  {
  }

  lemma FrontQuiet(c: Config, r: Run)
    requires QuietRun(c, r) && |r.actions| > 0
    ensures QuietRun(c, Front(r))
  {
    var f := Front(r);
    assert forall i {:trigger f.actions[i]} :: 0 <= i < |f.actions| ==> f.actions[i] == r.actions[i];
  }

  lemma LastLowers(c: Config, r: Run)
    requires Timely(c) && QuietRun(c, r) && |r.actions| > 0 && Core(r.states[|r.actions| - 1])
    ensures Measure(r.states[|r.actions|]) + (if IsMove(r.actions[|r.actions| - 1]) then 1 else 0)
      <= Measure(r.states[|r.actions| - 1])
  {
    var n := |r.actions|;
    assert Quiet(c, r.states[n - 1], r.actions[n - 1]);
    QuietLowers(c, r.states[n - 1], r.actions[n - 1]);
  }

  /** Some worker is free, or holds a lease that is still running. */
  ghost predicate CanWork(s: State) {
    exists w :: w in s.workers && (s.workers[w].Idle? || Live(s, w))
  }

  /** The step of a live worker that goes well. */
  function Forth(s: State, w: WorkerId): Action
    requires IsBusy(s, w)
  {
    match s.workers[w].pc
    case Received => Load(w, true)
    case Loaded(_, _) => Mark(w, s.now, Done)
    case Ready => CallProcess(w)
    case Processing => ReturnProcess(w, Err("no answer"))
    case Processed(_, _) => Persist(w, s.now, Done)
    case Acking => Ack(w, true)
    case Nacking => Nack(w, true)
  }

  /** The step of the handler of a POST that goes well. */
  function Answer(s: State, id: JobId): Action
    requires id in s.posts
  {
    match s.posts[id]
    case Stored => EnqueueJob(id, Done)
    case Enqueued => Respond(id)
    case Refused(_) => Compensate(id, s.now, Done)
  }

  /** Kept instants are never in the future. */
  ghost predicate Stamped(s: State) {
    && (forall w :: IsBusy(s, w) ==>
          ((s.workers[w].pc.Loaded? || s.workers[w].pc.Processed?) ==> s.workers[w].pc.at <= s.now))
    && (forall id :: id in s.posts && s.posts[id].Refused? ==> s.posts[id].at <= s.now)
  }

  lemma {:induction false} StampedFollows(c: Config, r: Run, k: nat)
    requires Follows(c, r) && Stamped(r.states[0]) && k < |r.states|
    ensures Stamped(r.states[k])
  {
    if k > 0 {
      StampedFollows(c, r, k - 1);
      StampedStep(c, r.states[k - 1], r.actions[k - 1]);
    }
  }

  lemma StampedStep(c: Config, s: State, a: Action)
    requires Stamped(s) && Enabled(c, s, a)
    ensures Stamped(Next(c, s, a))
  {
  }

  lemma ForthIsQuiet(c: Config, s: State, w: WorkerId)
    requires Stamped(s) && Live(s, w)
    ensures Quiet(c, s, Forth(s, w)) && IsMove(Forth(s, w)) && CanWork(Next(c, s, Forth(s, w)))
  {
    var t := Next(c, s, Forth(s, w));
    assert w in t.workers && (t.workers[w].Idle? || Live(t, w));
  }

  lemma AnswerIsQuiet(c: Config, s: State, id: JobId)
    requires Stamped(s) && CanWork(s) && id in s.posts
    ensures Quiet(c, s, Answer(s, id)) && IsMove(Answer(s, id)) && CanWork(Next(c, s, Answer(s, id)))
  {
    var t := Next(c, s, Answer(s, id));
    assert t.workers == s.workers && t.now == s.now;
    var w :| w in s.workers && (s.workers[w].Idle? || Live(s, w));
    assert w in t.workers && (t.workers[w].Idle? || Live(t, w));
  }

  /** With no live worker, an idle one can take any row once its time has come. */
  lemma WaitIsQuiet(c: Config, s: State, id: JobId) returns (a: Action)
    requires id in s.queue && (forall w :: !Live(s, w)) && CanWork(s)
    ensures Quiet(c, s, a) && !IsMove(a) && a.Tick? && CanWork(Next(c, s, a))
    ensures forall w :: !Live(Next(c, s, a), w)
    ensures Next(c, s, a).queue == s.queue && Next(c, s, a).posts == s.posts
    ensures LeaseTable.Available(s.queue[id], Next(c, s, a).now)
  {
    var lease := if s.queue[id].lease.Some? then s.queue[id].lease.value else 0;
    a := Tick(1 + s.queue[id].availableAt + lease);
    assert forall w :: Live(Next(c, s, a), w) ==> Live(s, w);
    var w :| w in s.workers && (s.workers[w].Idle? || Live(s, w));
    assert Next(c, s, a).workers[w].Idle?;
  }

  lemma ReceiveIsQuiet(c: Config, s: State, id: JobId) returns (a: Action)
    requires c.lease > 0 && id in s.queue && (forall w :: !Live(s, w)) && CanWork(s)
    requires LeaseTable.Available(s.queue[id], s.now)
    ensures Quiet(c, s, a) && IsMove(a) && CanWork(Next(c, s, a))
  {
    var w :| w in s.workers && (s.workers[w].Idle? || Live(s, w));
    a := Receive(w, id);
    assert Live(Next(c, s, a), w);
  }

  ghost predicate Good(s: State) {
    Core(s) && Stamped(s)
  }

  lemma {:induction false} GoodAlong(c: Config, r: Run, k: nat)
    requires Timely(c) && IsRun(c, r) && k < |r.states|
    ensures Good(r.states[k])
  {
    CoreAlong(c, r, k);
    StampedFollows(c, r, k);
  }

  lemma GoodStep(c: Config, s: State, a: Action)
    requires Timely(c) && Good(s) && Enabled(c, s, a)
    ensures Good(Next(c, s, a))
  {
    CoreStep(c, s, a);
    StampedStep(c, s, a);
  }

  /** A run that starts in `s` with the step `a`. */
  lemma Prepend(c: Config, s: State, a: Action, rest: Run) returns (r: Run)
    requires Quiet(c, s, a) && QuietRun(c, rest) && rest.states[0] == Next(c, s, a)
    ensures QuietRun(c, r) && r.states[0] == s && r.states[|r.actions|] == rest.states[|rest.actions|]
  {
    r := Run([s] + rest.states, [a] + rest.actions);
    forall i {:trigger r.actions[i]} | 0 <= i < |r.actions|
      ensures Quiet(c, r.states[i], r.actions[i]) && r.states[i + 1] == Next(c, r.states[i], r.actions[i])
    {
      if i > 0 {
        assert r.actions[i] == rest.actions[i - 1];
      }
    }
  }

  /** Nothing is left to do. */
  ghost predicate Drained(s: State) {
    s.queue == map[] && s.posts == map[]
  }

  /** From every good state everything can be brought to its end quietly, if a worker can work at all. */
  lemma {:induction false} DrainCompletes(c: Config, s: State) returns (r: Run)
    requires Timely(c) && Good(s) && CanWork(s)
    ensures QuietRun(c, r) && r.states[0] == s && Drained(r.states[|r.actions|])
    decreases Measure(s), 1
  {
    if Drained(s) {
      r := Run([s], []);
    } else if post :| post in s.posts {
      AnswerIsQuiet(c, s, post);
      r := DrainAfter(c, s, Answer(s, post));
    } else if w :| Live(s, w) {
      ForthIsQuiet(c, s, w);
      r := DrainAfter(c, s, Forth(s, w));
    } else {
      var id :| id in s.queue;
      var wait := WaitIsQuiet(c, s, id);
      QuietLowers(c, s, wait);
      GoodStep(c, s, wait);
      var take := ReceiveIsQuiet(c, Next(c, s, wait), id);
      r := DrainAfter(c, Next(c, s, wait), take);
      r := Prepend(c, s, wait, r);
    }
  }

  lemma {:induction false} DrainAfter(c: Config, s: State, a: Action) returns (r: Run)
    requires Timely(c) && Good(s) && Quiet(c, s, a) && IsMove(a) && CanWork(Next(c, s, a))
    ensures QuietRun(c, r) && r.states[0] == s && Drained(r.states[|r.actions|])
    decreases Measure(s), 0
  {
    QuietLowers(c, s, a);
    GoodStep(c, s, a);
    r := DrainCompletes(c, Next(c, s, a));
    r := Prepend(c, s, a, r);
  }

  /** Once the queue is empty, every accepted job is finished or deleted. */
  lemma DrainedMeansFinished(s: State)
    requires Ids(s) && Outcomes(s) && s.queue == map[]
    ensures forall id :: id in s.history.accepted ==> Finished(s, id)
  {
  }

  /** Who was accepted once stays so. */
  lemma {:induction false} AcceptedStays(c: Config, r: Run, k: nat)
    requires Follows(c, r) && k < |r.states|
    ensures r.states[0].history.accepted <= r.states[k].history.accepted
  {
    if k > 0 {
      AcceptedStays(c, r, k - 1);
      assert r.states[k] == Next(c, r.states[k - 1], r.actions[k - 1]);
    }
  }

  lemma QuietKeepsWork(c: Config, s: State, a: Action)
    requires c.lease > 0 && CanWork(s) && Quiet(c, s, a)
    ensures CanWork(Next(c, s, a))
  {
    var t := Next(c, s, a);
    var w :| w in s.workers && (s.workers[w].Idle? || Live(s, w));
    assert w in t.workers && (t.workers[w].Idle? || Live(t, w));
  }

  lemma {:induction false} QuietRunKeepsWork(c: Config, r: Run, k: nat)
    requires c.lease > 0 && QuietRun(c, r) && CanWork(r.states[0]) && k < |r.states|
    ensures CanWork(r.states[k])
  {
    if k > 0 {
      QuietRunKeepsWork(c, r, k - 1);
      assert Quiet(c, r.states[k - 1], r.actions[k - 1]);
      QuietKeepsWork(c, r.states[k - 1], r.actions[k - 1]);
    }
  }

  /** A quiet run that ends with nothing left to do, and with every job ever accepted terminal or deleted. */
  ghost predicate DrainsFrom(c: Config, q: Run, s: State) {
    && QuietRun(c, q) && q.states[0] == s && Drained(q.states[|q.actions|])
    && s.history.accepted <= q.states[|q.actions|].history.accepted
    && forall id :: id in q.states[|q.actions|].history.accepted ==> Finished(q.states[|q.actions|], id)
  }

  lemma DrainFromGood(c: Config, s: State) returns (q: Run)
    requires Timely(c) && Good(s) && CanWork(s)
    ensures DrainsFrom(c, q, s)
  {
    q := DrainCompletes(c, s);
    CoreFollows(c, q, |q.actions|);
    AcceptedStays(c, q, |q.actions|);
    DrainedMeansFinished(q.states[|q.actions|]);
  }

  /**
   After every run in which some worker can work, every quiet run makes at most as many moves as the measure it
   starts with, and whatever it did so far, it can go on quietly until no row and no POST is left and every job
   accepted before or meanwhile is terminal or deleted.
   */
  lemma DrainEmpties(c: Config, r: Run, q: Run) returns (rest: Run)
    requires Timely(c) && IsRun(c, r) && CanWork(r.states[|r.actions|])
    requires QuietRun(c, q) && q.states[0] == r.states[|r.actions|]
    ensures Moves(q.actions) + Measure(q.states[|q.actions|]) <= Measure(r.states[|r.actions|])
    ensures DrainsFrom(c, rest, q.states[|q.actions|])
  {
    GoodAlong(c, r, |r.actions|);
    DrainBound(c, q);
    CoreFollows(c, q, |q.actions|);
    StampedFollows(c, q, |q.actions|);
    QuietRunKeepsWork(c, q, |q.actions|);
    rest := DrainFromGood(c, q.states[|q.actions|]);
  }
}
