/**
 The record half of the in-memory backend. A job here is a struct whose optional
 parts sit behind pointers, whose glossary is a map object and whose lists are
 slices over arrays; `Clone` copies all of them. The backend refines a map of
 job values, and nothing it stores is reachable by its callers.
 */
module MemoryBackend {
  import opened Wrappers
  import opened Jobs
  import Paging

  /** The target of a pointer. */
  class Cell<V> {
    var value: V

    constructor (value: V)
      ensures this.value == value
    {
      this.value := value;
    }
  }

  /** A map object. */
  class Dict {
    var entries: map<string, string>

    constructor (entries: map<string, string>)
      ensures this.entries == entries
    {
      this.entries := entries;
    }
  }

  datatype Error = NotFound

  /** The request of a job, with its references. */
  datatype Task = Task(
    plain: Request,
    glossary: Dict?,
    attributes: array?<string>,
    delimiters: array?<string>)

  datatype Record = Record(
    id: JobId,
    owner: string,
    status: Status,
    task: Task,
    result: Cell?<Reply>,
    error: string,
    createdAt: Time,
    updatedAt: Time,
    startedAt: Cell?<Time>,
    completedAt: Cell?<Time>,
    expiresAt: Time)

  datatype Change = Change(
    status: Status,
    result: Cell?<Reply>,
    error: string,
    updatedAt: Time,
    startedAt: Cell?<Time>,
    completedAt: Cell?<Time>)

  // ---------- What a record refers to, and the value it stands for ----------

  ghost function Some1(o: object?): set<object> {
    if o == null then {} else {o}
  }

  ghost function Refs(r: Record): set<object> {
    TaskRefs(r.task) + Some1(r.result) + Some1(r.startedAt) + Some1(r.completedAt)
  }

  ghost function ChangeRefs(u: Change): set<object> {
    Some1(u.result) + Some1(u.startedAt) + Some1(u.completedAt)
  }

  ghost function Deref<V>(cell: Cell?<V>): Option<V>
    reads cell
  {
    if cell == null then None else Some(cell.value)
  }

  ghost function Entries(dict: Dict?): Option<map<string, string>>
    reads dict
  {
    if dict == null then None else Some(dict.entries)
  }

  /** A nil slice and an empty one are the same list. */
  ghost function Items(slice: array?<string>): seq<string>
    reads slice
  {
    if slice == null then [] else slice[..]
  }

  ghost function TaskRefs(t: Task): set<object> {
    Some1(t.glossary) + Some1(t.attributes) + Some1(t.delimiters)
  }

  ghost function RequestOf(t: Task): Request
    reads TaskRefs(t)
  {
    t.plain.(translation := t.plain.translation.(
      glossary := Entries(t.glossary), attributes := Items(t.attributes), delimiters := Items(t.delimiters)))
  }

  ghost function ValueOf(r: Record): Job
    reads Refs(r)
  {
    Job(r.id, r.owner, r.status, RequestOf(r.task),
        Deref(r.result), r.error, r.createdAt, r.updatedAt,
        Deref(r.startedAt), Deref(r.completedAt), r.expiresAt)
  }

  ghost function ChangeValue(u: Change): Update
    reads ChangeRefs(u)
  {
    Update(u.status, Deref(u.result), u.error, u.updatedAt, Deref(u.startedAt), Deref(u.completedAt))
  }

  twostate lemma SameValue(r: Record)
    requires unchanged(Refs(r))
    ensures ValueOf(r) == old(ValueOf(r))
  {
  }

  // ---------- Clone ----------

  method CloneCell<V>(cell: Cell?<V>) returns (copy: Cell?<V>)
    ensures Deref(copy) == Deref(cell) && fresh(Some1(copy))
  {
    copy := null;
    if cell != null {
      copy := new Cell(cell.value);
    }
  }

  /** `cloneMap`: key by key into a new map object. */
  method CloneDict(dict: Dict?) returns (copy: Dict?)
    ensures Entries(copy) == Entries(dict) && fresh(Some1(copy))
  {
    copy := null;
    if dict != null {
      copy := new Dict(map[]);
      var keys := dict.entries.Keys;
      while keys != {}
        invariant keys <= dict.entries.Keys && fresh(copy)
        invariant dict.entries == old(dict.entries)
        invariant copy.entries == dict.entries - keys
        decreases keys
      {
        var key :| key in keys;
        copy.entries := copy.entries[key := dict.entries[key]];
        keys := keys - {key};
      }
      assert dict.entries - keys == dict.entries;
    }
  }

  /** Appending to a nil slice: a new array, or nil again when there is nothing to append. */
  method CloneSlice(slice: array?<string>) returns (copy: array?<string>)
    ensures Items(copy) == Items(slice) && fresh(Some1(copy))
    ensures copy == null <==> slice == null || slice.Length == 0
  {
    copy := null;
    if slice != null && slice.Length > 0 {
      copy := new string[slice.Length](i requires 0 <= i < slice.Length reads slice => slice[i]);
    }
  }

  method CloneTask(t: Task) returns (c: Task)
    ensures RequestOf(c) == RequestOf(t) && fresh(TaskRefs(c))
  {
    var glossary := CloneDict(t.glossary);
    var attributes := CloneSlice(t.attributes);
    var delimiters := CloneSlice(t.delimiters);
    c := Task(t.plain, glossary, attributes, delimiters);
  }

  method Clone(r: Record) returns (c: Record)
    ensures ValueOf(c) == ValueOf(r) && fresh(Refs(c))
    ensures c.id == r.id && c.owner == r.owner && c.createdAt == r.createdAt && c.expiresAt == r.expiresAt
  {
    var task := CloneTask(r.task);
    var result := CloneCell(r.result);
    var startedAt := CloneCell(r.startedAt);
    var completedAt := CloneCell(r.completedAt);
    c := r.(task := task, result := result, startedAt := startedAt, completedAt := completedAt);
  }

  // ---------- The backend ----------

  class Backend {
    var values: map<JobId, Record>
    ghost var Repr: set<object>

    /** The records as values. */
    ghost var Contents: Store

    ghost predicate Valid()
      reads this, Repr
    {
      && this in Repr && values.Keys == Contents.Keys
      && forall id :: id in values ==> values[id].id == id && Owns(values[id]) && Shows(values[id])
    }

    /** `r` has the value recorded for its ID. */
    ghost predicate Shows(r: Record)
      reads this, Refs(r)
    {
      r.id in Contents && ValueOf(r) == Contents[r.id]
    }

    ghost predicate Owns(r: Record)
      reads this
    {
      Refs(r) <= Repr && this !in Refs(r)
    }

    /** Nothing outside what the backend owns bears on it. */
    twostate lemma Untouched()
      requires old(Valid()) && unchanged(old(Repr))
      ensures Valid()
    {
    }

    constructor ()
      ensures Valid() && fresh(Repr) && Contents == map[]
    {
      values := map[];
      Contents, Repr := map[], {this};
    }

    method Create(job: Record)
      requires Valid()
      modifies this
      ensures Valid() && fresh(Repr - old(Repr))
      ensures Contents == old(Contents)[job.id := old(ValueOf(job))]
    {
      var copy := Clone(job);
      Put(copy);
    }

    /** Stores a record under its ID; the backend then owns what it refers to. */
    method Put(job: Record)
      requires Valid() && this !in Refs(job)
      modifies this
      ensures Valid() && Repr == old(Repr) + Refs(job)
      ensures Contents == old(Contents)[job.id := old(ValueOf(job))]
    {
      ghost var before := values;
      Contents := Contents[job.id := ValueOf(job)];
      values := values[job.id := job];
      Repr := Repr + Refs(job);
      forall id | id in before ensures ValueOf(before[id]) == old(ValueOf(before[id])) {
        SameValue(before[id]);
      }
      SameValue(job);
    }

    method Get(id: JobId) returns (found: Result<Record, Error>)
      requires Valid()
      ensures found.Ok? <==> id in Contents
      ensures found.Ok? ==> ValueOf(found.value) == Contents[id] && fresh(Refs(found.value))
    {
      if id !in values {
        return Err(NotFound);
      }
      var copy := Clone(values[id]);
      return Ok(copy);
    }

    method Update(id: JobId, update: Change) returns (error: Option<Error>)
      requires Valid()
      modifies this
      ensures Valid() && fresh(Repr - old(Repr))
      ensures Contents == UpdateStore(old(Contents), id, old(ChangeValue(update)))
      ensures error.None? <==> id in old(Contents)
    {
      if id !in values {
        return Some(NotFound);
      }
      var job := values[id];
      job := job.(status := update.status, result := update.result,
                  error := update.error, updatedAt := update.updatedAt);
      if update.startedAt != null {
        job := job.(startedAt := update.startedAt);
      }
      if update.completedAt != null {
        job := job.(completedAt := update.completedAt);
      }
      assert ValueOf(job) == Apply(Contents[id], ChangeValue(update));
      var copy := Clone(job);
      Put(copy);
      return None;
    }

    /** Deletes while it goes over the map. */
    method Sweep(before: Time) returns (deleted: nat)
      modifies this`values
      ensures values == map id | id in old(values) && old(values)[id].expiresAt > before :: old(values)[id]
      ensures deleted == |old(values)| - |values|
    {
      deleted := 0;
      ghost var stored := values;
      var ids := values.Keys;
      while ids != {}
        invariant ids <= values.Keys <= stored.Keys && deleted == |stored| - |values|
        invariant forall id :: id in values ==> values[id] == stored[id]
        invariant forall id :: id in stored && id !in ids ==> (id in values <==> stored[id].expiresAt > before)
        decreases ids
      {
        var id :| id in ids;
        if values[id].expiresAt <= before {
          values := values - {id};
          deleted := deleted + 1;
        }
        ids := ids - {id};
      }
    }

    /** Fewer records of the same values. */
    twostate lemma Shrunk()
      requires old(Valid()) && Repr == old(Repr) && unchanged(old(Repr) - {this})
      requires values.Keys == Contents.Keys
      requires forall id :: id in values ==> id in old(values) && values[id] == old(values[id])
      requires forall id :: id in values ==> Contents[id] == old(Contents[id])
      ensures Valid()
    {
      forall id | id in values ensures Owns(values[id]) && Shows(values[id]) {
        assert old(Owns(values[id])) && old(Shows(values[id]));
        SameValue(values[id]);
      }
    }

    method DeleteExpired(before: Time) returns (deleted: nat)
      requires Valid()
      modifies this`values, this`Contents
      ensures Valid() && Contents == Jobs.DeleteExpired(old(Contents), before)
      ensures forall id :: id in Contents <==> id in old(Contents) && old(Contents)[id].expiresAt > before
      ensures deleted == |old(Contents)| - |Contents|
    {
      ghost var stored := values;
      assert forall id :: id in stored ==> Contents[id].expiresAt == stored[id].expiresAt;
      ghost var kept := Jobs.DeleteExpired(Contents, before);
      SameSizes(Contents, stored);
      deleted := Sweep(before);
      SameSizes(kept, values);
      Contents := kept;
      Shrunk();
    }

    // ---------- List ----------

    ghost predicate Wanted(id: JobId, owner: string, before: Time)
      reads this
    {
      id in Contents && Paging.Matches(Contents[id], owner, before)
    }

    /** Copying one more record leaves the earlier copies as they are. */
    method CopyBeside(found: seq<Record>, job: Record) returns (copy: Record)
      requires Shows(job) && forall i :: 0 <= i < |found| ==> Shows(found[i])
      ensures Shows(copy) && fresh(Refs(copy)) && copy.id == job.id
      ensures forall i :: 0 <= i < |found| ==> Shows(found[i])
    {
      copy := Clone(job);
    }

    /** The records of `owner` before the bound, copied, in the arbitrary order of the map. */
    method Collect(owner: string, before: Time) returns (found: seq<Record>)
      requires Valid()
      ensures forall i :: 0 <= i < |found| ==> fresh(Refs(found[i])) && Shows(found[i])
      ensures Different(found)
      ensures forall id :: Wanted(id, owner, before) <==> Holds(found, id)
    {
      found := [];
      var ids := values.Keys;
      while ids != {}
        invariant ids <= values.Keys
        invariant forall i :: 0 <= i < |found| ==> fresh(Refs(found[i])) && Shows(found[i])
        invariant Different(found)
        invariant forall id :: Wanted(id, owner, before) && id !in ids <==> Holds(found, id)
        decreases ids
      {
        var id :| id in ids;
        SameValue(values[id]);
        found := Consider(found, values[id], owner, before);
        ids := ids - {id};
      }
    }

    /** One turn of the loop: copy the record if it is wanted. */
    method Consider(found: seq<Record>, job: Record, owner: string, before: Time) returns (more: seq<Record>)
      requires Shows(job) && Different(found) && !Holds(found, job.id)
      requires forall i :: 0 <= i < |found| ==> Shows(found[i])
      ensures |found| <= |more| && forall i :: 0 <= i < |found| ==> more[i] == found[i]
      ensures forall i :: |found| <= i < |more| ==> fresh(Refs(more[i]))
      ensures forall i :: 0 <= i < |more| ==> Shows(more[i])
      ensures Different(more)
      ensures forall id :: Holds(more, id) <==> Holds(found, id) || (id == job.id && Wanted(id, owner, before))
    {
      more := found;
      if job.owner == owner && (before == 0 || job.createdAt < before) {
        var copy := CopyBeside(found, job);
        HoldsMore(found, copy);
        more := found + [copy];
      }
    }

    /** The copies in the order of the listing, and their values. */
    method Arrange(owner: string, before: Time) returns (sorted: seq<Record>, ghost all: seq<Job>)
      requires Valid()
      ensures |all| == |sorted|
      ensures forall i :: 0 <= i < |sorted| ==> fresh(Refs(sorted[i])) && all[i] == ValueOf(sorted[i])
      ensures Paging.Descending(all) && forall job :: job in all <==> Paging.Listed(Contents, owner, before, job)
    {
      var found := Collect(owner, before);
      sorted := Order(found);
      forall i | 0 <= i < |sorted| ensures Shows(sorted[i]) && fresh(Refs(sorted[i])) {
        assert Among(sorted[i], found);
      }
      all := seq(|sorted|, i requires 0 <= i < |sorted| && sorted[i].id in Contents reads this =>
                   Contents[sorted[i].id]);
      ShowsAll(owner, before, sorted, all);
    }

    /** At most `limit` records, newest first; `jobs` are their values. */
    method List(owner: string, limit: int, before: Time) returns (page: seq<Record>, ghost jobs: seq<Job>)
      requires Valid()
      ensures |jobs| == |page| && forall i :: 0 <= i < |page| ==> fresh(Refs(page[i])) && jobs[i] == ValueOf(page[i])
      ensures Paging.IsPage(Contents, owner, before, if limit > 0 then limit else 20, jobs)
      ensures if limit > 0 then |page| <= limit else |page| <= 20
    {
      ghost var all;
      page, all := Arrange(owner, before);
      jobs := all;
      Paging.NewestMakePage(Contents, owner, before, Paging.Limit(limit), all);
      if |page| > Paging.Limit(limit) {
        page, jobs := page[..Paging.Limit(limit)], all[..Paging.Limit(limit)];
      }
    }

    lemma ShowsAll(owner: string, before: Time, sorted: seq<Record>, all: seq<Job>)
      requires Valid() && |all| == |sorted| && NewestFirst(sorted) && Different(sorted)
      requires forall id :: Wanted(id, owner, before) <==> Holds(sorted, id)
      requires forall i :: 0 <= i < |sorted| ==> Shows(sorted[i]) && all[i] == Contents[sorted[i].id]
      ensures Paging.Descending(all)
      ensures forall job :: job in all <==> Paging.Listed(Contents, owner, before, job)
    {
      assert forall i :: 0 <= i < |sorted| ==> all[i] == ValueOf(sorted[i]);
      forall job | Paging.Listed(Contents, owner, before, job) ensures job in all {
        assert Wanted(job.id, owner, before);
        var i :| 0 <= i < |sorted| && sorted[i].id == job.id;
        assert all[i] == job;
      }
      forall i | 0 <= i < |all| ensures Paging.Listed(Contents, owner, before, all[i]) {
        assert Holds(sorted, sorted[i].id);
      }
    }
  }

  lemma SameSizes<K, V, W>(m: map<K, V>, n: map<K, W>)
    requires m.Keys == n.Keys
    ensures |m| == |n|
  {
    assert |m.Keys| == |m| && |n.Keys| == |n|;
  }

  predicate Different(s: seq<Record>) {
    forall i, k :: 0 <= i < k < |s| ==> s[i].id != s[k].id
  }

  predicate Holds(s: seq<Record>, id: JobId) {
    exists i :: 0 <= i < |s| && s[i].id == id
  }

  lemma HoldsMore(s: seq<Record>, r: Record)
    ensures forall id :: Holds(s + [r], id) <==> Holds(s, id) || id == r.id
    ensures Different(s) && !Holds(s, r.id) ==> Different(s + [r])
  {
    var t := s + [r];
    assert t[|s|] == r;
    assert forall i :: 0 <= i < |s| ==> t[i] == s[i];
  }

  predicate NewestFirst(s: seq<Record>) {
    forall i, k :: 0 <= i < k < |s| ==> s[i].createdAt >= s[k].createdAt
  }

  /** `sort.Slice` by creation time; equal times come out in the order of the map, which is arbitrary. */
  function SortNewestFirst(s: seq<Record>): seq<Record> {
    if s == [] then [] else Insert(SortNewestFirst(s[..|s| - 1]), s[|s| - 1])
  }

  predicate Among(r: Record, s: seq<Record>) {
    exists k :: 0 <= k < |s| && s[k] == r
  }

  /** `t` is `s` in another order: all of its records, each once, newest first. */
  ghost predicate Arranges(t: seq<Record>, s: seq<Record>) {
    && NewestFirst(t) && Different(t) && |t| == |s|
    && (forall i :: 0 <= i < |t| ==> Among(t[i], s))
    && (forall id :: Holds(t, id) <==> Holds(s, id))
  }

  lemma {:induction false} SortArranges(s: seq<Record>)
    requires Different(s)
    ensures Arranges(SortNewestFirst(s), s)
  {
    if s != [] {
      var front, last := s[..|s| - 1], s[|s| - 1];
      var t, u := SortNewestFirst(front), SortNewestFirst(s);
      SortArranges(front);
      assert s == front + [last];
      HoldsMore(front, last);
      assert !Holds(front, last.id);
      InsertArranges(t, last);
      forall i | 0 <= i < |u| ensures Among(u[i], s) {
        if Among(u[i], t) {
          var k :| 0 <= k < |t| && t[k] == u[i];
          var j :| 0 <= j < |front| && front[j] == t[k];
          assert s[j] == u[i];
        } else {
          assert s[|s| - 1] == u[i];
        }
      }
    }
  }

  method Order(found: seq<Record>) returns (sorted: seq<Record>)
    requires Different(found)
    ensures Arranges(sorted, found)
  {
    SortArranges(found);
    sorted := SortNewestFirst(found);
  }

  function Insert(t: seq<Record>, r: Record): seq<Record> {
    if t == [] || t[0].createdAt < r.createdAt then [r] + t else [t[0]] + Insert(t[1..], r)
  }

  lemma {:induction false} InsertArranges(t: seq<Record>, r: Record)
    requires NewestFirst(t) && Different(t) && !Holds(t, r.id)
    ensures var u := Insert(t, r);
      && NewestFirst(u) && Different(u) && |u| == |t| + 1
      && (forall i :: 0 <= i < |u| ==> u[i] == r || Among(u[i], t))
      && (forall id :: Holds(u, id) <==> Holds(t, id) || id == r.id)
      && (t == [] || t[0].createdAt < r.createdAt || u[0] == t[0])
  {
    if t == [] || t[0].createdAt < r.createdAt {
      Prefixed(r, t);
    } else {
      var rest := t[1..];
      assert t == [t[0]] + rest;
      Prefixed(t[0], rest);
      InsertArranges(rest, r);
      var v := Insert(rest, r);
      RestAmong(t, r, v);
      Prefixed(t[0], v);
    }
  }

  lemma RestAmong(t: seq<Record>, r: Record, v: seq<Record>)
    requires NewestFirst(t) && t != [] && r.createdAt <= t[0].createdAt
    requires forall i :: 0 <= i < |v| ==> v[i] == r || Among(v[i], t[1..])
    ensures forall i :: 0 <= i < |v| ==> v[i].createdAt <= t[0].createdAt && (v[i] == r || Among(v[i], t))
  {
    forall i | 0 <= i < |v| ensures v[i].createdAt <= t[0].createdAt && (v[i] == r || Among(v[i], t)) {
      if v[i] != r {
        var k :| 0 <= k < |t[1..]| && t[1..][k] == v[i];
        assert t[k + 1] == v[i];
      }
    }
  }

  lemma Prefixed(r: Record, t: seq<Record>)
    ensures forall id :: Holds([r] + t, id) <==> Holds(t, id) || id == r.id
    ensures NewestFirst(t) && (forall i :: 0 <= i < |t| ==> t[i].createdAt <= r.createdAt) ==> NewestFirst([r] + t)
    ensures Different(t) && !Holds(t, r.id) <==> Different([r] + t)
  {
    PrefixedHolds(r, t);
    PrefixedNewest(r, t);
    PrefixedDifferent(r, t);
  }

  lemma PrefixedHolds(r: Record, t: seq<Record>)
    ensures forall id :: Holds([r] + t, id) <==> Holds(t, id) || id == r.id
  {
    var u := [r] + t;
    assert u[0] == r && forall i :: 0 <= i < |t| ==> u[i + 1] == t[i];
  }

  lemma PrefixedNewest(r: Record, t: seq<Record>)
    ensures NewestFirst(t) && (forall i :: 0 <= i < |t| ==> t[i].createdAt <= r.createdAt) ==> NewestFirst([r] + t)
  {
    assert forall i :: 0 < i < |[r] + t| ==> ([r] + t)[i] == t[i - 1];
  }

  lemma PrefixedDifferent(r: Record, t: seq<Record>)
    ensures Different(t) && !Holds(t, r.id) <==> Different([r] + t)
  {
    var u := [r] + t;
    assert u[0] == r && forall i :: 0 <= i < |t| ==> u[i + 1] == t[i];
    assert forall i :: 0 < i < |u| ==> u[i] == t[i - 1];
  }

  // ---------- What callers cannot do ----------

  /** A caller writes through every reference of a record it holds. */
  method Scramble(r: Record)
    modifies Refs(r)
  {
    if r.task.glossary != null {
      r.task.glossary.entries := map["key" := "changed"];
    }
    if r.task.attributes != null {
      forall i | 0 <= i < r.task.attributes.Length {
        r.task.attributes[i] := "changed";
      }
    }
    if r.task.delimiters != null {
      forall i | 0 <= i < r.task.delimiters.Length {
        r.task.delimiters[i] := "changed";
      }
    }
    if r.result != null {
      r.result.value := Reply("changed", "", "", 0, 0, 0);
    }
    if r.startedAt != null {
      r.startedAt.value := 0;
    }
    if r.completedAt != null {
      r.completedAt.value := 0;
    }
  }

  method CreateThenScramble(b: Backend, job: Record)
    requires b.Valid() && Refs(job) !! b.Repr
    modifies b, Refs(job)
    ensures b.Valid() && b.Contents == old(b.Contents)[job.id := old(ValueOf(job))]
  {
    b.Create(job);
    assert Refs(job) !! b.Repr;
    label created:
    Scramble(job);
    b.Untouched@created();
  }

  method GetThenScramble(b: Backend, id: JobId)
    requires b.Valid()
    ensures b.Valid() && b.Contents == old(b.Contents)
  {
    var found := b.Get(id);
    if found.Ok? {
      Scramble(found.value);
    }
  }

  method ScrambleChange(u: Change)
    modifies ChangeRefs(u)
  {
    if u.result != null {
      u.result.value := Reply("changed", "", "", 0, 0, 0);
    }
    if u.startedAt != null {
      u.startedAt.value := 0;
    }
    if u.completedAt != null {
      u.completedAt.value := 0;
    }
  }

  method UpdateThenScramble(b: Backend, id: JobId, update: Change)
    requires b.Valid() && ChangeRefs(update) !! b.Repr
    modifies b, ChangeRefs(update)
    ensures b.Valid() && b.Contents == UpdateStore(old(b.Contents), id, old(ChangeValue(update)))
  {
    var _ := b.Update(id, update);
    assert ChangeRefs(update) !! b.Repr;
    label updated:
    ScrambleChange(update);
    b.Untouched@updated();
  }

  method ListThenScramble(b: Backend, owner: string, limit: int, before: Time)
    requires b.Valid()
    ensures b.Valid() && b.Contents == old(b.Contents)
  {
    var page, jobs := b.List(owner, limit, before);
    for i := 0 to |page|
      invariant b.Valid() && b.Contents == old(b.Contents)
    {
      Scramble(page[i]);
    }
  }
}
