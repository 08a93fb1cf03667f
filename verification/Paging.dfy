/**
 The history of one owner, page by page: what `Store.List` returns for a bound
 and a limit, and what a client collects that passes the creation time of the
 last job it received as the next bound.
 */
module Paging {
  import opened Jobs

  const DEFAULT_LIMIT := 20

  /** The limit in force; the zero or a negative one stands for the default. */
  function Limit(limit: int): nat {
    if limit <= 0 then DEFAULT_LIMIT else limit
  }

  /** A zero `before` is no bound. */
  predicate Matches(job: Job, owner: string, before: Time) {
    job.owner == owner && (before == 0 || job.createdAt < before)
  }

  predicate Stored(store: Store, job: Job) {
    job.id in store && store[job.id] == job
  }

  predicate Listed(store: Store, owner: string, before: Time, job: Job) {
    Stored(store, job) && Matches(job, owner, before)
  }

  predicate Descending(page: seq<Job>) {
    forall i, k :: 0 <= i < k < |page| ==> page[i].createdAt >= page[k].createdAt && page[i].id != page[k].id
  }

  /** `page` holds the newest jobs that match; only a full page leaves any out. */
  ghost predicate IsPage(store: Store, owner: string, before: Time, limit: nat, page: seq<Job>) {
    && |page| <= limit
    && Descending(page)
    && (forall job :: job in page ==> Listed(store, owner, before, job))
    && (forall job :: Listed(store, owner, before, job) && job !in page ==>
          |page| == limit && forall i :: 0 <= i < |page| ==> page[i].createdAt >= job.createdAt)
  }

  /** All records keep their IDs as keys. */
  ghost predicate Keyed(store: Store) {
    forall id :: id in store ==> store[id].id == id
  }

  ghost predicate NonZeroTimes(store: Store, owner: string) {
    forall id :: id in store && store[id].owner == owner ==> store[id].createdAt != 0
  }

  /** No two jobs of `owner` were created at the same instant, and none at the zero time. */
  ghost predicate DistinctTimes(store: Store, owner: string) {
    && NonZeroTimes(store, owner)
    && forall a, b :: a in store && b in store && store[a].owner == owner && store[b].owner == owner ==>
         store[a].createdAt == store[b].createdAt ==> a == b
  }

  /** What a client receives that asks until a page comes back empty. */
  ghost predicate Pages(store: Store, owner: string, before: Time, limit: nat, pages: seq<seq<Job>>)
    decreases |pages|
  {
    && pages != []
    && IsPage(store, owner, before, limit, pages[0])
    && (if pages[0] == [] then |pages| == 1
        else Pages(store, owner, Bound(pages[0]), limit, pages[1..]))
  }

  function Bound(page: seq<Job>): Time
    requires page != []
  {
    page[|page| - 1].createdAt
  }

  function Concat(pages: seq<seq<Job>>): seq<Job> {
    if pages == [] then [] else pages[0] + Concat(pages[1..])
  }

  /** A page and the jobs older than its last one are exactly the jobs that match. */
  lemma PageSplits(store: Store, owner: string, before: Time, limit: nat, page: seq<Job>, job: Job)
    requires Keyed(store) && DistinctTimes(store, owner) && limit > 0
    requires IsPage(store, owner, before, limit, page) && page != []
    ensures Listed(store, owner, before, job) <==> job in page || Listed(store, owner, Bound(page), job)
    ensures !(job in page && Listed(store, owner, Bound(page), job))
  {
    var last := page[|page| - 1];
    assert last in page && Listed(store, owner, before, last);
    if job in page {
      var i :| 0 <= i < |page| && page[i] == job;
      assert i == |page| - 1 || job.createdAt >= last.createdAt;
    }
  }

  /** Every job of the owner, exactly once and newest first, whatever the page size. */
  lemma {:induction false} PagingComplete(store: Store, owner: string, before: Time, limit: nat, pages: seq<seq<Job>>)
    requires Keyed(store) && DistinctTimes(store, owner) && limit > 0
    requires Pages(store, owner, before, limit, pages)
    ensures Descending(Concat(pages))
    ensures forall job :: job in Concat(pages) <==> Listed(store, owner, before, job)
    decreases |pages|
  {
    if pages[0] == [] {
      assert Concat(pages[1..]) == [];
      assert forall job :: Listed(store, owner, before, job) ==> job in pages[0];
    } else {
      var page, rest := pages[0], Concat(pages[1..]);
      PagingComplete(store, owner, Bound(page), limit, pages[1..]);
      forall job ensures job in Concat(pages) <==> Listed(store, owner, before, job) {
        PageSplits(store, owner, before, limit, page, job);
      }
      OlderFollow(store, owner, before, limit, page, rest);
    }
  }

  /** Jobs older than the last of a page, after the page. */
  lemma OlderFollow(store: Store, owner: string, before: Time, limit: nat, page: seq<Job>, rest: seq<Job>)
    requires Keyed(store) && NonZeroTimes(store, owner) && IsPage(store, owner, before, limit, page) && page != []
    requires Descending(rest) && forall job :: job in rest ==> Listed(store, owner, Bound(page), job)
    ensures Descending(page + rest)
  {
    assert page[|page| - 1] in page;
    forall i, k | 0 <= i < |page| && 0 <= k < |rest|
      ensures page[i].createdAt >= rest[k].createdAt && page[i].id != rest[k].id
    {
      assert page[i] in page && rest[k] in rest;
      assert page[i].createdAt >= Bound(page) > rest[k].createdAt;
    }
  }

  ghost function ListedIds(store: Store, owner: string, before: Time): set<JobId> {
    set id | id in store && Matches(store[id], owner, before)
  }

  /** A client that has received `pages` so far, and asks on after each page that is not empty. */
  ghost predicate Session(store: Store, owner: string, before: Time, limit: nat, pages: seq<seq<Job>>)
    decreases |pages|
  {
    pages != [] ==>
      && IsPage(store, owner, before, limit, pages[0])
      && (if pages[0] == [] then |pages| == 1
          else Session(store, owner, Bound(pages[0]), limit, pages[1..]))
  }

  /** The next bound leaves out at least the last job received. */
  lemma FewerLeft(store: Store, owner: string, before: Time, limit: nat, page: seq<Job>)
    requires NonZeroTimes(store, owner) && IsPage(store, owner, before, limit, page) && page != []
    ensures |ListedIds(store, owner, Bound(page))| < |ListedIds(store, owner, before)|
  {
    var last := page[|page| - 1];
    assert last in page && Listed(store, owner, before, last);
    var more, fewer := ListedIds(store, owner, before), ListedIds(store, owner, Bound(page));
    assert fewer <= more - {last.id};
    assert |more| == |more - {last.id}| + 1;
    SubsetSize(fewer, more - {last.id});
  }

  lemma {:induction false} SubsetSize<T>(a: set<T>, b: set<T>)
    requires a <= b
    ensures |a| <= |b|
  {
    assert b == a + (b - a);
    assert |b| == |a| + |b - a|;
  }

  /** Every client stops, whichever pages it is served: it asks at most once more than there are jobs. */
  lemma {:induction false} PagingStops(store: Store, owner: string, before: Time, limit: nat, pages: seq<seq<Job>>)
    requires NonZeroTimes(store, owner) && Session(store, owner, before, limit, pages)
    ensures |pages| <= |ListedIds(store, owner, before)| + 1
    decreases |pages|
  {
    if pages != [] && pages[0] != [] {
      FewerLeft(store, owner, before, limit, pages[0]);
      PagingStops(store, owner, Bound(pages[0]), limit, pages[1..]);
    }
  }

  /** With pages of one job, no two of the jobs received were created at the same instant. */
  lemma {:induction false} SinglesDiffer(store: Store, owner: string, before: Time, pages: seq<seq<Job>>)
    requires NonZeroTimes(store, owner) && Pages(store, owner, before, 1, pages)
    ensures forall job :: job in Concat(pages) ==> Listed(store, owner, before, job)
    ensures forall x, y :: x in Concat(pages) && y in Concat(pages) && x.createdAt == y.createdAt ==> x == y
    decreases |pages|
  {
    if pages[0] == [] {
      assert Concat(pages[1..]) == [];
    } else {
      var bound := Bound(pages[0]);
      SinglesDiffer(store, owner, bound, pages[1..]);
      assert pages[0] == [pages[0][0]];
      assert Listed(store, owner, before, pages[0][0]);
    }
  }

  /** So distinct times are needed: of two jobs of one instant such a client misses one. */
  lemma TiesAreSkipped(store: Store, owner: string, pages: seq<seq<Job>>, a: Job, b: Job)
    requires NonZeroTimes(store, owner) && Pages(store, owner, 0, 1, pages)
    requires Listed(store, owner, 0, a) && Listed(store, owner, 0, b) && a != b && a.createdAt == b.createdAt
    ensures !(a in Concat(pages) && b in Concat(pages))
  {
    SinglesDiffer(store, owner, 0, pages);
  }

  lemma {:induction false} NewestExists(store: Store, ids: set<JobId>)
    requires ids <= store.Keys && ids != {}
    ensures exists id :: Newest(store, ids, id)
    decreases ids
  {
    var some :| some in ids;
    if ids == {some} {
      assert Newest(store, ids, some);
    } else {
      NewestExists(store, ids - {some});
      var id :| Newest(store, ids - {some}, id);
      assert forall other :: other in ids ==> other == some || other in ids - {some};
      assert Newest(store, ids, if store[some].createdAt > store[id].createdAt then some else id);
    }
  }

  predicate Newest(store: Store, ids: set<JobId>, id: JobId)
    requires ids <= store.Keys
  {
    id in ids && forall other :: other in ids ==> store[id].createdAt >= store[other].createdAt
  }

  /** Any set of records can be listed newest first. */
  lemma {:induction false} Arranged(store: Store, ids: set<JobId>) returns (all: seq<Job>)
    requires Keyed(store) && ids <= store.Keys
    ensures Descending(all) && forall job :: job in all <==> job.id in ids && job == store[job.id]
    decreases ids
  {
    if ids == {} {
      all := [];
    } else {
      NewestExists(store, ids);
      var id :| Newest(store, ids, id);
      var older := Arranged(store, ids - {id});
      all := [store[id]] + older;
      assert forall i :: 0 <= i < |older| ==> older[i] in older;
    }
  }

  /** A client can always be served to the end. */
  lemma {:induction false} PagesExist(store: Store, owner: string, before: Time, limit: nat)
    returns (pages: seq<seq<Job>>)
    requires Keyed(store) && NonZeroTimes(store, owner) && limit > 0
    ensures Pages(store, owner, before, limit, pages)
    decreases |ListedIds(store, owner, before)|
  {
    var all := Arranged(store, ListedIds(store, owner, before));
    assert forall job :: job in all <==> Listed(store, owner, before, job);
    NewestMakePage(store, owner, before, limit, all);
    var page := if |all| > limit then all[..limit] else all;
    if page == [] {
      pages := [page];
    } else {
      FewerLeft(store, owner, before, limit, page);
      var rest := PagesExist(store, owner, Bound(page), limit);
      pages := [page] + rest;
      assert pages[1..] == rest;
    }
  }

  /** Whatever the page size and however ties are served, no job of the owner is missed. */
  ghost predicate NeverMisses(store: Store, owner: string) {
    forall limit: nat, pages, job :: limit > 0 && Pages(store, owner, 0, limit, pages) && Listed(store, owner, 0, job)
      ==> job in Concat(pages)
  }

  /** That is so exactly when no two jobs of the owner were created at one instant. */
  lemma PagingExactly(store: Store, owner: string)
    requires Keyed(store) && NonZeroTimes(store, owner)
    ensures NeverMisses(store, owner) <==> DistinctTimes(store, owner)
  {
    if DistinctTimes(store, owner) {
      forall limit: nat, pages, job | limit > 0 && Pages(store, owner, 0, limit, pages) && Listed(store, owner, 0, job)
        ensures job in Concat(pages)
      {
        PagingComplete(store, owner, 0, limit, pages);
      }
    } else {
      var a, b :| a in store && b in store && store[a].owner == owner && store[b].owner == owner
        && store[a].createdAt == store[b].createdAt && a != b;
      OneIsMissed(store, owner, store[a], store[b]);
    }
  }

  lemma OneIsMissed(store: Store, owner: string, a: Job, b: Job)
    requires Keyed(store) && NonZeroTimes(store, owner)
    requires Listed(store, owner, 0, a) && Listed(store, owner, 0, b) && a != b && a.createdAt == b.createdAt
    ensures !NeverMisses(store, owner)
  {
    var pages := PagesExist(store, owner, 0, 1);
    TiesAreSkipped(store, owner, pages, a, b);
    var missed := if a in Concat(pages) then b else a;
    assert Listed(store, owner, 0, missed) && missed !in Concat(pages);
  }

  /** Sorted newest first and cut at the limit, the jobs that match make a page. */
  lemma NewestMakePage(store: Store, owner: string, before: Time, limit: nat, all: seq<Job>)
    requires Descending(all) && forall job :: job in all <==> Listed(store, owner, before, job)
    ensures IsPage(store, owner, before, limit, if |all| > limit then all[..limit] else all)
  {
    var page := if |all| > limit then all[..limit] else all;
    forall job | Listed(store, owner, before, job) && job !in page
      ensures |page| == limit && forall i :: 0 <= i < |page| ==> page[i].createdAt >= job.createdAt
    {
      var k :| 0 <= k < |all| && all[k] == job;
      assert k >= |page|;
    }
  }
}
