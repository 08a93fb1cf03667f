# Verified model of transliter's job protocol and text codecs

transliter turns translation requests into prompts, sends them to a model server and checks what comes back. Two parts
of it are modelled here and proved correct with Dafny 4.11 (`dafny verify dfyconfig.toml`).

**The asynchronous job protocol.** REST handlers store a job and enqueue its ID; scheduler workers receive it, load it,
mark it running, call the model, persist the outcome and acknowledge; expired jobs are deleted at any time. `Protocol`
is a transition system whose grain is one store or queue operation, so that all parties interleave between operations.
A worker may die anywhere; a `Get`, `Update`, `Ack` or `Nack` may fail, and a failed `Update`, `Ack` or `Nack` may or may
not have taken effect. `Invariants` holds the inductive invariants, `Guarantees`, `Accounting` and `Drain` what follows
from them over whole runs, `Witnesses` runs that break those guarantees once a hypothesis is dropped, `Exactness` the
condition under which each guarantee holds, `Compensation` what becomes of a job that could not be enqueued, and
`Provenance` where a stored outcome comes from. `Scheduler` is the imperative code of `handle`, `runWorker` and
`create`: each of its operations is one step of a run of `Protocol`, with any number of steps of the other parties
before it. `PostgresBackend`, `RedisQueue` and `MemoryQueue` are the queues as classes, all shown to be one abstract bag
of tokens (`TokenQueue`); `MemoryBackend` is the in-memory store with its pointers, map objects and slices, shown to be
a map of values that no caller can reach into; `Paging` is the listing contract.

**The text codecs and checks.** `JsonShape` (a printer whose output decides structure), `Delimiters` (a greedy scanner),
`Fence`, `Prompt` and `MarkdownFences` (a fence that always lets the source be recovered, and its counter), and
`HtmlStructure` (a stack machine with error recovery), with `Masking` for what it sees of a document. `PromptReader`
reads a prompt back line by line, knowing its fixed words only. `Counts` holds the comparison of count maps, `Strings`
the order of strings and sorting, `TextLines` the lines of a text, `Quoting` the quoting of keys and values. A string is
a sequence of bytes.

## Hypotheses of the protocol

- Job IDs are fresh (`CreateJob` needs an unused ID) and the clock never goes back (`Tick` only adds); the processes
  and the database read one clock. A lease lasts for some time, as the constructors of the backends make sure.
- `Config.leaseRespected`: a worker takes no step at or after its lease deadline. This is what a lease of twice the job
  timeout is meant to ensure; the code does not enforce it, because `Update`, `Ack` and `Nack` are not bounded by that
  timeout and `Store.Update` does not look at the status it overwrites. Exclusive leases, no loss of an accepted job
  and the bound on calls of `Process` hold exactly under this hypothesis (`Exactness.ExclusiveExactly`, `NoLossExactly`,
  `CallsExactly`), and draining needs no other. In a single run exclusive leases need less: that no Ack or Nack of a
  worker whose lease has run out takes effect (`Guarantees.LeaseExclusion`).
- `Config.enqueueClean`: an `Enqueue` that reports an error has left no row. Terminal records that never change and
  coherent records hold exactly under both hypotheses (`Exactness.TerminalExactly`, `CoherentExactly`): after an
  `Enqueue` that failed but left its row, the compensation in the REST handler can overwrite a succeeded record.
- `Guarantees.AckFollowsFinish`, what `handle` and `create` do in `Scheduler`, and `Invariants.DeliveriesAlong` need
  neither; contracts that do need one say so where they use it.
- The queues are token queues under the matching hypothesis on one delivery: it is used before its deadline. For the
  in-memory channel the hypothesis is that no `Nack` is cancelled, and it is exact (`MemoryQueue.NackKeepsExactly`):
  a cancelled `Nack` may lose its job, and on a full channel it does (`MemoryQueue.FullChannelLoses`), although the
  documentation calls every queue at-least-once.

The documentation says that a job that could not be enqueued is marked failed (docs/rest-api.md:253-254). The handler
drops the error of that `Update`, so the promise can fail: `Compensation.RejectionLeavesOrphan` reaches a job that is
stored as queued, was never enqueued and has no handler left, in every configuration. The promise is kept exactly when
the `Update` takes effect (`Compensation.RejectionMarksExactly`, and `MarkedExactly` over whole runs without a
hypothesis), and a job that is not marked stays queued and without a row for as long as it is stored
(`Compensation.OrphanStays`). It was answered with 503 and never counts as accepted.

## Findings about the text checks

- Two documents whose events render alike have the same events exactly when their tags have as many colons, one by one
  (`HtmlStructure.ComparisonDecides`): `<a b:x="1"/>` and `<a:b x="1"/>` render alike, so such a change of tag passes
  the check (`HtmlStructure.TagChangePasses`).
- `FenceSource` always adds two fences to the text, but `markdownFences` counts both exactly when every line fits the
  line scanner's buffer (`MarkdownFences.EnclosingAddsTwo`).
- Where a delimiter's marker stands only in front, printed delimiters read back exactly when no delimiter is the
  beginning of another (`Delimiters.ReadsBackExactly`).
- Paging misses no job, whatever the page size, exactly when no two jobs of an owner were created at one instant
  (`Paging.PagingExactly`).

- A prompt always gives its source back. All that stands above the fence reads back too, as long as the request is
  legible (`Prompt.Legible`): what stands on one line holds no line feed, and neither the source language nor a glossary
  key holds the separator that follows it, which is exact (`Prompt.TaskReads`, `Prompt.TermReads`). The rules must have
  no empty line, as those of the program have none.

## Model

| member | source | states |
|---|---|---|
| Guarantees.LeaseExclusion | lib/jobs/postgres/backend.go:219-277 | In every state of every run in which no Ack or Nack of a worker whose lease has run out takes effect: two workers whose leases are running never hold the same job, and the row of each is there with exactly its lease. |
| Guarantees.NoAcceptedJobLost | lib/jobs/scheduler.go:63-119 | When workers respect their leases, a job answered with 202 that is still stored as queued or running has its queue row, in every state of every run. |
| Guarantees.AckFollowsFinish | lib/jobs/scheduler.go:63-119 | With no timing hypothesis: every Ack is preceded, within the same delivery, by a moment when the job was terminal or gone. |
| Guarantees.ForwardStep | lib/jobs/scheduler.go:74-116 | Under both hypotheses one step moves a status only forward, changes no terminal record, and fails a queued job only by the handler's compensation. |
| Guarantees.StatusForward | lib/jobs/scheduler.go:74-116 | Under both hypotheses, between any two moments of a run a stored record has only moved forward; a terminal one is unchanged, and a start time once set stays. |
| Guarantees.FinishedStays | lib/jobs/scheduler.go:74-77 | Under both hypotheses a job that is terminal or deleted at one moment of a run is so at every later one. |
| Guarantees.RecordCoherence | lib/jobs/postgres/backend.go:128-161 | Under both hypotheses result, error, start and completion fit the status of every record in every reachable state, and its times are in order. |
| Guarantees.StaysStored | lib/jobs/jobs.go:98-104 | IDs are not reused: a record seen at two moments was stored at every moment between. |
| Invariants.HolderWritesAlone | lib/jobs/postgres/backend.go:219-277 | While a worker's lease runs nobody else writes its job; others can only delete it. |
| Invariants.RewriteStep | lib/jobs/postgres/backend.go:128-161 | A step leaves a record as it is or applies one of the three updates to the status it is meant for, with a stamp no earlier than the last. |
| Invariants.InvStep | lib/jobs/scheduler.go:63-119 | Every step, faults included, keeps the whole invariant: the core, what workers know of statuses, and coherent records. |
| Invariants.InvAlong | lib/jobs/scheduler.go:63-119 | Under both hypotheses the whole invariant holds along every run. |
| Invariants.CoreStep | lib/jobs/scheduler.go:63-119 | When workers respect their leases, every step, faults and a failed Enqueue that left its row included, keeps the core: IDs, deliveries, leases, outcomes and settled calls. |
| Invariants.CoreAlong | lib/jobs/scheduler.go:63-119 | When workers respect their leases, the core holds along every run. |
| Invariants.LeasesAlong | lib/jobs/postgres/backend.go:219-277 | In a run without a late Ack or Nack that takes effect, live workers hold the rows of their jobs, each its own. |
| Invariants.DeliveriesAlong | lib/jobs/scheduler.go:45-119 | With no hypothesis: IDs and deliveries are accounted for along every run; each delivery calls Process at most once and each call is settled, lost or still in progress. |
| Accounting.CountIsCalls | lib/jobs/scheduler.go:98-98 | Each delivery calls Process at most once: the number of calls counted along a run is the number of deliveries recorded as having called. |
| Accounting.InferenceAccounting | lib/jobs/scheduler.go:93-118 | When workers respect their leases, Process is called for a job at most once more than its deliveries ended without a terminal write. |
| Accounting.FaultFreeCallsOnce | lib/jobs/scheduler.go:93-118 | Without faults and without a lease that runs out under a worker, Process is called for a job at most once. |
| Accounting.FaultFreeIsTimely | lib/jobs/scheduler.go:63-119 | Such a run is a run in which workers respect their leases. |
| Drain.QuietLowers | lib/jobs/scheduler.go:63-119 | With no POST coming in and no fault of a worker, every step of a worker and of a handler still at work lowers a natural-number measure, and clock and deletions never raise it. |
| Drain.DrainBound | lib/jobs/scheduler.go:45-119 | A quiet run makes no more such steps than the measure it starts with. |
| Drain.DrainCompletes | lib/jobs/scheduler.go:45-119 | From every good state in which some worker can work there is a quiet run after which no row and no POST is left. |
| Drain.DrainEmpties | lib/jobs/scheduler.go:45-119 | After every run in which some worker can work, every quiet run makes at most as many moves as the measure it starts with, and whatever it did so far, it can go on quietly until no row and no POST is left and every job accepted before or meanwhile is terminal or deleted. |
| Drain.QuietRunKeepsWork | lib/jobs/scheduler.go:45-61 | No quiet step takes away the last worker that can work. |
| Drain.DrainedMeansFinished | lib/jobs/scheduler.go:63-119 | In a state with an empty queue that keeps the invariant every accepted job is terminal or deleted. |
| Witnesses.StaleWorkerOverwrites | lib/jobs/scheduler.go:101-118 | For every lease, a run without the deadline hypothesis in which a late worker turns a succeeded record into a failed one, after two calls of Process that both were written. |
| Witnesses.StaleWorkerLosesJob | lib/jobs/scheduler.go:79-91 | For every lease, a run without the deadline hypothesis that ends with an accepted job running, with a completion time and without a row. |
| Witnesses.LeftoverRowOverwrites | lib/restapi/handler.go:115-125 | For every lease, a run with an Enqueue that failed but left its row, in which the compensation overwrites a succeeded record. |
| Witnesses.StaleWorkerShares | lib/jobs/postgres/backend.go:271-277 | For every lease, a run without the deadline hypothesis in which a late Nack lets two workers hold one job. |
| Witnesses.LeftoverRowRevives | lib/restapi/handler.go:115-125 | For every lease, a run with an Enqueue that failed but left its row, in which a compensated job is marked running. |
| Exactness.ExclusiveExactly | lib/jobs/postgres/backend.go:219-277 | Leases are exclusive in every reachable state exactly when workers respect them. |
| Exactness.NoLossExactly | lib/jobs/scheduler.go:63-119 | No accepted job is lost in any reachable state exactly when workers respect their leases. |
| Exactness.CallsExactly | lib/jobs/scheduler.go:93-118 | The bound on calls of Process holds for every run exactly when workers respect their leases. |
| Exactness.TerminalExactly | lib/jobs/postgres/backend.go:128-161 | No step from a reachable state changes a terminal record that stays stored, exactly when workers respect their leases and a failed Enqueue leaves no row. |
| Exactness.CoherentExactly | lib/jobs/postgres/backend.go:128-161 | All records are coherent in every reachable state exactly under the same two conditions. |
| Compensation.MarkedExactly | lib/restapi/handler.go:115-125 | With no hypothesis, in every state of every run: a stored job that was never enqueued is failed exactly when its compensation took effect, and queued exactly when not. |
| Compensation.RejectionMarksExactly | lib/restapi/handler.go:115-125 | When a failed Enqueue leaves no row: the compensation of a stored job finds it queued and leaves it failed exactly when the update took effect. |
| Compensation.OrphanStays | lib/restapi/handler.go:115-125 | With no hypothesis: a job that was allocated, never enqueued, has no POST, is not accepted and is queued if stored stays so, without a row, in every later state of the run. |
| Compensation.RejectionLeavesOrphan | lib/restapi/handler.go:115-125 | In every configuration: a run with an Enqueue and an update that fail, which leaves such a job stored as queued. |
| Provenance.OutcomeWasReturned | lib/jobs/scheduler.go:98-118 | With no hypothesis, in every state of every run: the result of a succeeded record is what Process returned to an earlier delivery of that job, and the error of a failed one too, unless it is that of the compensation. |
| Provenance.StartedFailureWasReturned | lib/jobs/scheduler.go:98-118 | Under both hypotheses the error of a failed record that was started is always what Process returned to a delivery of that job. |
| Scheduler.Deployment.Perform | lib/jobs/scheduler.go:63-119 | A step taken by the code extends the run of the protocol by that action, is counted for its worker, and brings no deleted job back. |
| Scheduler.Deployment.Get | lib/jobs/scheduler.go:64-77 | What Get returned is what is stored at that moment, and the worker is where handle branches on it. |
| Scheduler.Deployment.UpdateToRunning | lib/jobs/scheduler.go:79-91 | Without an error the job is stored as running, started and updated at the stamp given; with one the delivery goes back. |
| Scheduler.Deployment.Process | lib/jobs/scheduler.go:93-99 | Exactly one call of Process when the worker comes back from it, at most one when it dies. |
| Scheduler.Deployment.UpdateToTerminal | lib/jobs/scheduler.go:101-117 | Without an error the job is stored as succeeded with exactly the reply, or as failed with exactly the message and no result, completed at the stamp given, and the delivery is acknowledged next; with an error it goes back. |
| Scheduler.Deployment.Settle | lib/jobs/scheduler.go:118-118 | Ack or Nack frees the worker whatever it reports; when workers respect their leases, only a finished job is acknowledged. |
| Scheduler.Deployment.Handle | lib/jobs/scheduler.go:63-119 | One delivery, under any interference: at most one call of Process; an Ack after a call means that exactly its outcome was stored meanwhile and, under both hypotheses, still stands; a Nack only after a fault or for a job deleted from the store; the worker is free at the end; and, when workers respect their leases, an Ack only for a finished job. |
| Scheduler.Deployment.ProcessAndComplete | lib/jobs/scheduler.go:93-118 | The same for the half of handle from the call of Process on. |
| Scheduler.Deployment.Receive | lib/jobs/postgres/backend.go:219-251 | With none received no row is available and the worker stays free; a received delivery has a deadline one lease away and, when workers respect their leases, is held by no other worker whose lease is running. |
| Scheduler.Deployment.RunWorker | lib/jobs/scheduler.go:45-61 | Each turn of the worker loop either handles one delivery to its ending, with at most one call of Process, or found no available row at a moment of the run; the worker is free after each. |
| Scheduler.Deployment.Create | lib/restapi/handler.go:92-128 | A 422 exactly for an invalid request, a 500 exactly for a valid one without an owner or retention, and both change nothing. Exactly a 202 makes the job accepted; then, when workers respect their leases, it is queued or finished; after a 503, when a failed Enqueue leaves no row, there is no row and the job is marked failed or an orphan. Whatever is stored under the ID has this owner and request, was created meanwhile and expires one retention later. |
| Scheduler.Deployment.StoreNew | lib/restapi/handler.go:106-114 | Whatever is stored under the new ID is the job as it was posted, and there is no row; a failed Create leaves an orphan. |
| Scheduler.Deployment.EnqueueStored | lib/restapi/handler.go:115-127 | The answer is 202 or 503, and exactly a 202 makes the job accepted; what each of them leaves is as for create. |
| Scheduler.Deployment.Reject | lib/restapi/handler.go:115-125 | Returns the error that the handler drops: without one the record is failed with the fixed message, no result and this completion time. When a failed Enqueue leaves no row, the job has none, a record still stored is failed exactly when the update took effect, and otherwise nobody will ever come to the job. |
| TokenQueue.StepKeepsValid | lib/jobs/jobs.go:85-96 | No step lets two deliveries hold one token. |
| TokenQueue.StepConserves | lib/jobs/jobs.go:85-96 | The number of tokens of a job grows by one with its Enqueue, falls by one with its Ack and changes with nothing else. |
| TokenQueue.PathConserves | lib/jobs/jobs.go:85-96 | Along every sequence of steps a job has as many tokens as it was enqueued and not yet acknowledged. |
| TokenQueue.WaitRefines | lib/jobs/postgres/backend.go:222-236 | Time passing closes exactly the deliveries whose deadline it reaches. |
| PostgresBackend.Backend.constructor | lib/jobs/postgres/backend.go:68-77 | An empty token queue; a lease that is not positive becomes ten minutes. |
| PostgresBackend.Backend.Create | lib/jobs/postgres/backend.go:96-114 | Inserts the seven columns it names, the others at their defaults, or reports a duplicate key and changes nothing. |
| PostgresBackend.Backend.CreateThenGet | lib/jobs/postgres/backend.go:96-126 | A job is read back queued, with its owner, request and times, expiring one retention later and with all else empty, unless its ID was taken. |
| PostgresBackend.Backend.UpdateThenGet | lib/jobs/postgres/backend.go:116-161 | What an update set is read back, the times it left out are as before, a missing record stays missing, and no other record changes. |
| PostgresBackend.Backend.Update | lib/jobs/postgres/backend.go:128-161 | The new store is the protocol's update of the old one, with COALESCE on both times; a missing ID is reported and changes nothing. |
| PostgresBackend.Backend.List | lib/jobs/postgres/backend.go:163-196 | The newest jobs of the owner before the bound, in falling order, leaving any out only when the page is full: at a positive limit given, else at 20. |
| PostgresBackend.Backend.DeleteExpired | lib/jobs/postgres/backend.go:198-208 | Exactly the records that have expired are gone, and their number is returned. |
| PostgresBackend.Backend.Enqueue | lib/jobs/postgres/backend.go:210-217 | A new row is one new token; an existing row becomes available now without a lease. |
| PostgresBackend.Backend.Receive | lib/jobs/postgres/backend.go:219-251 | Hands out the row that became available first as the token queue's Receive: its lease, and the deadline of the delivery, is one lease from now, and all else is as before; or no row is available. |
| PostgresBackend.Backend.ReceiveRepeatedly | lib/jobs/postgres/backend.go:219-251 | However often the others wait and receive, as long as less than the lease has passed in total none of them gets the job again and its row is not available. |
| PostgresBackend.Backend.ReceiveAgain | lib/jobs/postgres/backend.go:219-251 | The next Receive gets another job before the lease has run out, and some job afterwards. |
| PostgresBackend.Backend.Ack | lib/jobs/postgres/backend.go:262-269 | On a delivery before its deadline: removes the row, which is the token queue's Ack. |
| PostgresBackend.Backend.Nack | lib/jobs/postgres/backend.go:271-277 | On a delivery before its deadline: keeps the token and makes the row available at once. |
| PostgresBackend.Backend.Wait | lib/jobs/postgres/backend.go:222-236 | Time passing closes the deliveries it overtakes and changes nothing else. |
| PostgresBackend.LeaseRefines | lib/jobs/postgres/backend.go:222-236 | Leasing an available row never takes it from an open delivery. |
| RedisQueue.Queue.constructor | lib/jobs/redis/backend.go:317-335 | An empty stream read from its start is an empty token queue. |
| RedisQueue.Queue.Enqueue | lib/jobs/redis/backend.go:215-221 | Adding an entry adds one token. |
| RedisQueue.Queue.Autoclaim | lib/jobs/redis/backend.go:269-303 | Of the first ten pending entries, all that one call looks at, it claims the first idle long enough, which no open delivery holds, or none of them is idle that long. |
| RedisQueue.Queue.ReadGroup | lib/jobs/redis/backend.go:236-255 | Reads the first entry the group has not read, or every entry is read. |
| RedisQueue.Queue.Reclaim | lib/jobs/redis/backend.go:269-315 | If the first idle entry has a job ID it is reclaimed, as the token queue's Receive; one without is acknowledged instead; with neither, no entry looked at is idle. |
| RedisQueue.Queue.Receive | lib/jobs/redis/backend.go:224-267 | The loop ends. If the first idle entry has a job ID, exactly that entry is received, before any unread one; with none received every entry has been read and none that is looked at is idle. What it delivers is the token queue's Receive, and only entries without a job ID have gone from the stream. |
| RedisQueue.Queue.Nack | lib/jobs/redis/backend.go:351-365 | On a delivery before its deadline: the entry is replaced by a new one for the same job, so the job keeps exactly one token. |
| RedisQueue.DeliverRefines | lib/jobs/redis/backend.go:269-315 | Handing out an entry claimed just now never takes it from an open delivery. |
| MemoryQueue.Queue.constructor | lib/jobs/memory/backend.go:24-32 | An empty channel of the given capacity, or of 1024, is an empty token queue. |
| MemoryQueue.Queue.Enqueue | lib/jobs/memory/backend.go:115-122 | What select may do and no more: the job enters a channel with room as one new token, or a cancelled call gives up and changes nothing; a cancelled call on a full channel always gives up. |
| MemoryQueue.Queue.Receive | lib/jobs/memory/backend.go:124-131 | First in, first out; the token queue's Receive, or a cancelled call that changes nothing. |
| MemoryQueue.Queue.Ack | lib/jobs/memory/backend.go:142-144 | Forgetting the delivery removes its token. |
| MemoryQueue.Queue.Nack | lib/jobs/memory/backend.go:146-148 | The job is sent again and keeps one token; when the send gives up, as it must on a full channel, the token is gone. |
| MemoryQueue.NackKeepsExactly | lib/jobs/memory/backend.go:115-148 | The token is kept in everything select may do exactly when the call is not cancelled. |
| MemoryQueue.FullChannelLoses | lib/jobs/memory/backend.go:115-148 | One job received, another filling the channel, the first given back by a cancelled call: no token is left for it. |
| MemoryBackend.Clone | lib/jobs/jobs.go:129-147 | The copy has the same value, and every reference in it is fresh. |
| MemoryBackend.CloneDict | lib/jobs/jobs.go:149-158 | A fresh map object with the same entries, or nil for nil. |
| MemoryBackend.CloneCell | lib/jobs/jobs.go:160-166 | A fresh pointer to the same value, or nil for nil. |
| MemoryBackend.CloneSlice | lib/jobs/jobs.go:132-139 | A fresh slice with the same items, nil exactly for a nil or an empty one. |
| MemoryBackend.Backend.Create | lib/jobs/memory/backend.go:34-39 | The store of values gains the value of the job, and what the backend owns grows by fresh objects only. |
| MemoryBackend.Backend.Get | lib/jobs/memory/backend.go:41-49 | The stored value behind fresh references, or not found. |
| MemoryBackend.Backend.Update | lib/jobs/memory/backend.go:51-70 | The same update of the store of values as in the protocol, and what the backend owns grows by fresh objects only. |
| MemoryBackend.Backend.List | lib/jobs/memory/backend.go:72-100 | A page of the store of values, cut at a positive limit given, else at 20, every record behind fresh references. |
| MemoryBackend.Backend.DeleteExpired | lib/jobs/memory/backend.go:102-113 | Deleting while looping removes exactly the expired records and counts them. |
| MemoryBackend.CreateThenScramble | lib/jobs/memory/backend.go:34-39 | A caller that writes through every reference of the job it passed in changes nothing stored. |
| MemoryBackend.GetThenScramble | lib/jobs/memory/backend.go:41-49 | A caller that writes through every reference of the job it received changes nothing stored. |
| MemoryBackend.UpdateThenScramble | lib/jobs/memory/backend.go:51-70 | A caller that writes through every reference of the update it passed in changes nothing stored. |
| MemoryBackend.ListThenScramble | lib/jobs/memory/backend.go:72-100 | A caller that writes through every reference of every job of a page changes nothing stored. |
| Paging.NewestMakePage | lib/jobs/memory/backend.go:93-99 | Sorting newest first and cutting at the limit yields a page. |
| Paging.PagingComplete | lib/restapi/handler.go:143-175 | With distinct creation times, asking on from the last job received yields every job of the owner exactly once, newest first, for every positive limit. |
| Paging.PagingStops | lib/restapi/handler.go:143-175 | No client, whichever pages it is served, asks more often than there are jobs plus once. |
| Paging.PagingExactly | lib/jobs/memory/backend.go:72-100 | No job is missed, whatever the page size and the order of ties, exactly when no two jobs of the owner share a creation time. |
| Paging.TiesAreSkipped | lib/jobs/memory/backend.go:88-98 | With pages of one job, of two jobs of one instant at least one is never received. |
| JsonShape.PrintShape | lib/validate.go:249-285 | The builder loops, whatever order the map yields its keys in, print the shape of the value. |
| JsonShape.ShapeDecidesStructure | lib/validate.go:217-230 | Two decoded values have the same shape string exactly when they are equal after the text of strings is forgotten. |
| JsonShape.PrintUnique | lib/validate.go:249-285 | A print followed by anything that may follow it can be read in one way only. |
| Quoting.QuoteUnique | lib/validate.go:261-261 | A quoted key ends where it ends: equal texts have equal keys and equal rests. |
| JsonShape.ErasedShape | lib/validate.go:282-284 | The shape does not depend on the text of strings. |
| Strings.SortStrings | lib/validate.go:253-257 | Sorting yields the one ordered arrangement of the strings. |
| Strings.OrderedIsUnique | lib/validate.go:253-257 | There is one way to put a collection of strings in order. |
| Strings.BeforeMeans | lib/validate.go:253-257 | One string is before another exactly when it is a proper prefix of it or has the lesser byte at the first difference. |
| Delimiters.Candidates | lib/validate.go:184-194 | Each non-empty delimiter once. |
| Delimiters.SortByLength | lib/validate.go:195-197 | The same strings, longest first, with the order of ties left open. |
| Delimiters.FirstMatch | lib/validate.go:201-206 | The first candidate that fits is the longest delimiter there, or no delimiter fits. |
| Delimiters.DelimiterSequence | lib/validate.go:180-215 | The result is the leftmost-longest non-overlapping scan for the set of delimiters: order, repetition and ties of the sort cannot change it. |
| Delimiters.EqualStrings | lib/validate.go:143-153 | True exactly for equal lists. |
| Delimiters.ReadsBack | lib/validate.go:180-215 | With a prefix-free set of delimiters that start with a marker absent from the segments, scanning what was printed returns the delimiters printed. |
| Delimiters.SegmentsAreFree | lib/validate.go:90-97 | A translation that changes only the segments passes the delimiter check. |
| Delimiters.ReadsBackExactly | lib/validate.go:180-215 | With the marker only in front, everything printed reads back exactly when the set is prefix-free. |
| Delimiters.ScanKeepsText | lib/validate.go:198-214 | The delimiters read, with the stretches stepped over between them, are the text. |
| Fence.LongestBacktickRun | lib/fence.go:9-23 | The greatest length of a run of backticks in the text. |
| Fence.LongestRunHolds | lib/fence.go:9-23 | The text has a run of that length and none longer. |
| Fence.RequiredFenceLength | lib/fence.go:27-36 | The least length that is at least the minimum and that no run reaches; an error exactly for a minimum below one. |
| Fence.FenceReadsBack | lib/fence.go:40-57 | For every text and accepted label, reading by section 4.5 of CommonMark 0.31.2 closes at the last line only and yields the text and one line feed. |
| Fence.EnclosedReadsBack | lib/fence.go:55-56 | The same for every fence length of three or more that no run of the text reaches. |
| Prompt.Validate | lib/prompt.go:121-149 | No error exactly for a request that meets every constraint. |
| Prompt.PromptOptions | lib/prompt.go:151-185 | The option lines, with the glossary in one order whatever the map yields. |
| Prompt.BuildPrompt | lib/prompt.go:85-116 | A prompt exactly for every acceptable request: it opens with the sentence that names both languages, a reader of its end gets exactly the source back, and a reader of the fixed words gets both languages, the rules, the glossary in order, style, audience, attributes and delimiters back from a legible one. |
| Prompt.SourceReadsBack | lib/prompt.go:110-115 | Whatever stands before the fence and whatever the source holds, reading from the end finds the source. |
| Prompt.PromptReadsBack | lib/prompt.go:85-185 | Whatever the source holds, the prompt of a legible request reads back in full, each option exactly where its field calls for it. |
| Prompt.PromptDecides | lib/prompt.go:85-185 | Legible requests have equal prompts exactly when they agree in source, languages, rules, glossary, style, audience, delimiters and, for markup, the list of attributes. |
| Prompt.TaskReads | lib/prompt.go:94-98 | The first line gives both languages back exactly when its separator does not occur in the source language. |
| Prompt.TermReads | lib/prompt.go:160-162 | A glossary line gives both terms back exactly when its separator does not occur in the source term. |
| Prompt.DelimiterLineUnique | lib/prompt.go:177-183 | The line of quoted delimiters can be read in one way only. |
| MarkdownFences.MarkdownFences | lib/validate.go:155-178 | The count map holds exactly the fence lines up to the first line that does not fit the scanner. |
| MarkdownFences.ScanFence | lib/validate.go:159-175 | One line counts as a fence by its indent, its marker and the length of its run. |
| MarkdownFences.FenceOfMeans | lib/validate.go:159-175 | A line is a fence of a marker and a length exactly when at most three blanks stand before a run of just so many of them, three or more backticks or tildes. |
| Counts.MatchCounts | lib/validate.go:123-129 | The count map holds exactly the tokens, as often as they occur. |
| Counts.EqualCounts | lib/validate.go:131-141 | The loop decides the comparison of two maps, with a missing key read as zero. |
| Counts.AgreeMeansEqual | lib/validate.go:131-141 | The comparison of count maps succeeds exactly when the same tokens were counted as often. |
| Counts.ComparePattern | lib/validate.go:114-121 | An issue exactly when some token occurs more or less often in the output than in the source. |
| MarkdownFences.EnclosingAddsTwo | lib/validate.go:155-178 | Enclosing a text adds two fences of a length the text does not have, exactly when every line fits the scanner. |
| MarkdownFences.FencedCounts | lib/fence.go:40-57 | For what FenceSource yields, the count map gains exactly the new key with the count two, under exactly that condition. |
| HtmlStructure.HtmlStructure | lib/validate.go:423-474 | The events in order and the complaints in order; no complaint exactly for tokens that end well and tags that nest. |
| HtmlStructure.CleanMeansBalanced | lib/validate.go:430-466 | Despite skip-and-continue, nothing is rejected and nothing left open exactly for the tags of a forest. |
| HtmlStructure.CleanCarriesOver | lib/validate.go:393-404 | Without colons in tags equal strings mean equal events, and then the output of a clean source is clean unless its tokenizer failed. |
| HtmlStructure.RenderDecides | lib/validate.go:441-457 | Events that render alike are of one kind, and equal exactly when their tags have as many colons. |
| HtmlStructure.RenderAllDecides | lib/validate.go:401-403 | Lists of events that render alike are equal exactly when their tags have as many colons, one by one. |
| HtmlStructure.ComparisonDecides | lib/validate.go:393-404 | For all tokens the tokenizer can yield: documents that pass the comparison have the same events exactly when their tags have as many colons, one by one. |
| HtmlStructure.ColonMoves | lib/validate.go:393-404 | For any lower-case names: moving a colon from the first attribute's name into the tag changes the events, and yet both documents nest and their events render alike. |
| HtmlStructure.AttributesUnique | lib/validate.go:444-457 | A joined list of attributes can be read in one way only. |
| Masking.EventsDecide | lib/validate.go:438-472 | Documents as the tokenizer can yield them have equal events exactly when they agree in kinds, names, comments, doctypes and attributes, up to text, case of names, order of attributes and the values of translatable ones. |
| Masking.AllowedIsUnseen | lib/validate.go:441-448 | Documents that differ only in the values of translatable attributes, however many, have equal events. |
| Masking.ValueChangeIsSeen | lib/validate.go:441-448 | Another value of one attribute leaves the events as they are exactly when that attribute is translatable. |
| Masking.LowerDecides | lib/validate.go:440-443 | Names are one in lower case exactly when they differ in the case of ASCII letters only. |
| HtmlStructure.AddMarkupChecks | lib/validate.go:384-408 | The issues in order, from whether each document ends well and nests, whether their events render alike, what the XML decoder said and which entities occur; a source that is not clean ends the check. |
| HtmlStructure.TagChangePasses | lib/validate.go:384-408 | For any lower-case names: moving a colon from the first attribute's name into the tag passes the whole check. |

## Left out

- Scheduler.Deployment.Receive: takes any available row, so that its guarantees do not depend on the order; `PostgresBackend.Backend.Receive` states the order. It returns when no row is available, where the program polls on.
- PostgresBackend.Backend.Receive: one poll; the timer and the cancelled context of the loop around it are not modelled. `SKIP LOCKED` cannot show at the grain of one statement.
- PostgresBackend.Backend.Enqueue: refines the token queue only for an ID without a row; for an ID with a row it states the new row, because the server enqueues each fresh ID once.
- RedisQueue.Queue.Autoclaim: a pending entry that was deleted from the stream does not occur, because acknowledging does both in one script; the cursor it returns is ignored, as in the program.
- RedisQueue.Queue.Receive: returns when there is nothing to hand out, where the program blocks and asks again; command errors are not modelled.
- MemoryBackend.Backend: records only; the channel half of the same struct is `MemoryQueue.Queue`. The lock is left out because each method is one step.
- MemoryBackend.Backend.List: equal creation times come out in the arbitrary order of the map, put in order by insertion; `sort.Slice` may leave ties in any order.
- Quoting.Quote: a small model of `strconv.Quote` that escapes quotes, backslashes and line breaks; what the proofs use is that it is injective and marks its end. `fmt`'s `%q` is the same function.
- JsonShape.PrintShape: number literals are opaque strings of the characters section 6 of RFC 8259 allows; decoding is left out.
- Prompt.BuildPrompt: the fixed wording and the language table are parameters, and white space is the ASCII kind.
- Prompt.Validate: the kind and the language are strings, as in the source; checks of a single model are not part of this model.
- MarkdownFences.MarkdownFences: a key is a pair of marker and length instead of their concatenation.
- HtmlStructure.HtmlStructure: works on the tokens of the tokenizer, which is not part of this model; lower case is the ASCII kind; the stack is a value instead of text in the message about unclosed tags.
- HtmlStructure.AddMarkupChecks: the XML decoder's answer and the matches of the entity pattern are given; issues are codes without their messages.
- Delimiters.DelimiterSequence: a missing list and an empty one are both the empty sequence, as `equalStrings` treats them.
- `TranslationProcessor` and the inference client: `Process` is an arbitrary result or error.
- The MySQL and SQLite stores and the embedded and external NATS queues: the first two repeat the PostgreSQL store, and the delivery cap of JetStream gives up a job by design.
- The Redis store: its update reads and writes in two steps over keys that expire, which is not the store of the protocol.
- Shutdown, cancelled contexts in the scheduler, polling intervals, API keys, random IDs, HTTP and JSON decoding, the web pages: plumbing.
- Regular-expression matching (`Counts` starts from the matches), `yamlShape`, `validateXML`, indentation profiles: matching and parsing libraries; `yamlShape` prints scalar values unquoted, so it decides less than `jsonShape` does.
- The rest of the model packages, their option tables and `BuildInput`: lookups that would add only easy members.
