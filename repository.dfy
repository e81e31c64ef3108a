/**
 * `jobsRepository` (backend/repositories/jobs_repository.go): data access for
 * job records over the shared collection.
 */
module Repositories {
  import opened Wrappers
  import opened ObjectIds
  import opened Models
  import opened Errors
  import opened Store

  const MaxInt64: int := 0x7FFF_FFFF_FFFF_FFFF
  const MinInt64: int := -0x8000_0000_0000_0000

  predicate IsInt64(x: int) {
    MinInt64 <= x <= MaxInt64
  }

  /** Go's 64-bit two's-complement wrap-around of an `int` result. */
  function WrapInt64(x: int): (r: int)
    ensures IsInt64(r)
    ensures (r - x) % 0x1_0000_0000_0000_0000 == 0
    ensures IsInt64(x) ==> r == x
  {
    (x - MinInt64) % 0x1_0000_0000_0000_0000 + MinInt64
  }

  /** The value of an exact result that is sent where an int64 is expected, saturated to that range. */
  function SaturateInt64(x: int): (r: int)
    ensures IsInt64(r)
    ensures IsInt64(x) ==> r == x
    ensures (r < 0) == (x < 0)
  {
    if x > MaxInt64 then MaxInt64 else if x < MinInt64 then MinInt64 else x
  }

  /** `skip := (page - 1) * limit` as written: the product wraps around in a 64-bit `int`. */
  function SkipAsWritten(page: int, limit: int): (r: int)
    ensures IsInt64(r)
    ensures (r - (page - 1) * limit) % 0x1_0000_0000_0000_0000 == 0
    ensures IsInt64((page - 1) * limit) ==> r == (page - 1) * limit
  {
    WrapInt64((page - 1) * limit)
  }

  /** For a page and limit of at least 1, the wrapped skip is the exact one exactly while the product fits. */
  lemma WrappedSkipExact(page: int, limit: int)
    requires page >= 1 && limit >= 1
    ensures (page - 1) * limit <= MaxInt64 <==> SkipAsWritten(page, limit) == (page - 1) * limit
    ensures (page - 1) * limit <= MaxInt64 ==> SkipAsWritten(page, limit) >= 0
  {
    assert (page - 1) * limit >= 0;
  }

  /** The number of listed jobs that precede a page: the exact product, saturated when sent to the server. */
  function Skip(page: int, limit: int): (r: int)
    ensures IsInt64(r)
    ensures IsInt64((page - 1) * limit) ==> r == (page - 1) * limit
    ensures (page - 1) * limit > MaxInt64 ==> r == MaxInt64
    ensures (r < 0) == ((page - 1) * limit < 0)
    ensures page >= 1 && limit >= 0 ==> r >= 0
  {
    SaturateInt64((page - 1) * limit)
  }

  /** The listing order: newest `createdAt` first. */
  predicate NewestFirst(s: seq<Job>) {
    forall i, j :: 0 <= i < j < |s| ==> s[i].createdAt >= s[j].createdAt
  }

  /** `all` lists every stored job exactly once, newest first (ties in any order). */
  ghost predicate IsListing(all: seq<Job>, docs: Docs) {
    NewestFirst(all) && multiset(all) == multiset(docs.Values)
  }

  function Min(a: int, b: int): int {
    if a <= b then a else b
  }

  function Abs(x: int): nat {
    if x < 0 then -x else x
  }

  /**
   * The documents a find returns from a sorted listing: the first `skip` are
   * passed over, then at most |limit| follow (a negative limit asks for a
   * single batch of |limit|; a limit of 0 means no limit).
   */
  function Window(all: seq<Job>, skip: nat, limit: int): (r: seq<Job>)
    ensures limit != 0 ==> |r| == Min(Abs(limit), |all| - Min(skip, |all|))
    ensures limit == 0 ==> |r| == |all| - Min(skip, |all|)
    ensures forall i :: 0 <= i < |r| ==> skip + i < |all| && r[i] == all[skip + i]
  {
    var from := Min(skip, |all|);
    var rest := all[from..];
    if limit == 0 then rest else rest[..Min(Abs(limit), |rest|)]
  }

  /** A page of the listing together with the count of all stored jobs. */
  datatype Page = Page(jobs: seq<Job>, total: int)

  ghost predicate IsPageOf(jobs: seq<Job>, docs: Docs, skip: nat, limit: int) {
    exists all :: IsListing(all, docs) && jobs == Window(all, skip, limit)
  }

  lemma PrependNewestFirst(x: Job, t: seq<Job>)
    requires NewestFirst(t)
    requires t == [] || x.createdAt >= t[0].createdAt
    ensures NewestFirst([x] + t)
  {
    var r := [x] + t;
    forall i, j | 0 <= i < j < |r| ensures r[i].createdAt >= r[j].createdAt {
      if i == 0 && j > 1 {
        assert r[j] == t[j - 1] && r[1] == t[0];
      }
    }
  }

  function InsertNewestFirst(j: Job, s: seq<Job>): (r: seq<Job>)
    requires NewestFirst(s)
    ensures NewestFirst(r)
    ensures multiset(r) == multiset(s) + multiset{j}
    ensures |r| == |s| + 1 && (r[0] == j || (s != [] && r[0] == s[0]))
  {
    if s == [] || s[0].createdAt <= j.createdAt then
      PrependNewestFirst(j, s);
      [j] + s
    else
      assert s == [s[0]] + s[1..];
      var tail := InsertNewestFirst(j, s[1..]);
      PrependNewestFirst(s[0], tail);
      [s[0]] + tail
  }

  ghost function StoredJobs(docs: Docs, keys: set<ObjectId>): set<Job> {
    set k | k in keys && k in docs :: docs[k]
  }

  lemma StoredJobsAdd(docs: Docs, done: set<ObjectId>, k: ObjectId)
    requires Keyed(docs) && k in docs && k !in done
    ensures multiset(StoredJobs(docs, done + {k})) == multiset(StoredJobs(docs, done)) + multiset{docs[k]}
  {
    var before := StoredJobs(docs, done);
    assert StoredJobs(docs, done + {k}) == before + {docs[k]};
    assert docs[k] !in before;
  }

  /** The sort the server performs for `SetSort(created_at: -1)` over the whole collection. */
  method NewestFirstListing(docs: Docs) returns (all: seq<Job>)
    requires Keyed(docs)
    ensures IsListing(all, docs)
  {
    var rest := docs.Keys;
    all := [];
    while rest != {}
      invariant rest <= docs.Keys
      invariant NewestFirst(all)
      invariant multiset(all) == multiset(StoredJobs(docs, docs.Keys - rest))
      decreases rest
    {
      var k :| k in rest;
      StoredJobsAdd(docs, docs.Keys - rest, k);
      assert docs.Keys - rest + {k} == docs.Keys - (rest - {k});
      all := InsertNewestFirst(docs[k], all);
      rest := rest - {k};
    }
    assert StoredJobs(docs, docs.Keys - rest) == docs.Values;
  }

  /** A page holds at most |limit| stored jobs, newest first. */
  lemma PageIsStoredNewestFirst(jobs: seq<Job>, docs: Docs, skip: nat, limit: int)
    requires Keyed(docs) && IsPageOf(jobs, docs, skip, limit)
    ensures limit != 0 ==> |jobs| <= Abs(limit)
    ensures NewestFirst(jobs)
    ensures forall i :: 0 <= i < |jobs| ==> jobs[i].id in docs && docs[jobs[i].id] == jobs[i]
  {
    var all :| IsListing(all, docs) && jobs == Window(all, skip, limit);
    forall i | 0 <= i < |jobs| ensures jobs[i].id in docs && docs[jobs[i].id] == jobs[i] {
      assert jobs[i] == all[skip + i];
      assert all[skip + i] in multiset(docs.Values);
    }
  }

  /** With pages of `limit` jobs, the job at position `i` of the listing is on page `i / limit + 1`. */
  lemma JobOnItsPage(all: seq<Job>, limit: int, i: nat)
    requires 1 <= limit && i < |all| && |all| <= MaxInt64
    ensures var page := i / limit + 1;
            var w := Window(all, SkipAsWritten(page, limit), limit);
            i % limit < |w| && w[i % limit] == all[i]
  {
    var page := i / limit + 1;
    assert (page - 1) * limit == i - i % limit;
    WrappedSkipExact(page, limit);
  }

  /** Two pages in a row are the window of twice the length: no job is skipped or repeated between pages. */
  lemma ConsecutivePagesAdjoin(all: seq<Job>, skip: nat, limit: nat)
    requires limit >= 1
    ensures Window(all, skip, limit) + Window(all, skip + limit, limit) == Window(all, skip, 2 * limit)
  {
    var a, b, c := Window(all, skip, limit), Window(all, skip + limit, limit), Window(all, skip, 2 * limit);
    assert |a + b| == |c|;
    forall i | 0 <= i < |c| ensures (a + b)[i] == c[i] {
      if i >= |a| {
        assert |a| == limit;
      }
    }
  }

  /** No two stored jobs were created at the same instant. */
  ghost predicate DistinctCreationTimes(docs: Docs) {
    forall a, b :: a in docs && b in docs && a != b ==> docs[a].createdAt != docs[b].createdAt
  }

  predicate StrictlyNewestFirst(s: seq<Job>) {
    forall i, j :: 0 <= i < j < |s| ==> s[i].createdAt > s[j].createdAt
  }

  /** The newest job of a strictly ordered listing heads every newest-first arrangement of it. */
  lemma StrictHeadIsNewest(a: seq<Job>, b: seq<Job>)
    requires StrictlyNewestFirst(a) && NewestFirst(b) && multiset(a) == multiset(b)
    requires a != []
    ensures b != [] && a[0] == b[0]
  {
    assert a[0] in multiset(b);
    var k :| 0 <= k < |b| && b[k] == a[0];
    assert b[0] in multiset(a);
    var m :| 0 <= m < |a| && a[m] == b[0];
    assert a[m].createdAt >= a[0].createdAt by {
      assert b[0].createdAt >= b[k].createdAt;
    }
  }

  lemma {:induction false} StrictOrderDeterminesSequence(a: seq<Job>, b: seq<Job>)
    requires StrictlyNewestFirst(a) && NewestFirst(b) && multiset(a) == multiset(b)
    ensures a == b
    decreases |a|
  {
    if a == [] {
      assert |b| == |multiset(b)| == 0;
    } else {
      StrictHeadIsNewest(a, b);
      assert a == [a[0]] + a[1..];
      assert b == [b[0]] + b[1..];
      assert multiset(a[1..]) == multiset(b[1..]) by {
        assert multiset(a) == multiset{a[0]} + multiset(a[1..]);
        assert multiset(b) == multiset{a[0]} + multiset(b[1..]);
        forall x ensures multiset(a[1..])[x] == multiset(b[1..])[x] {
          assert multiset(a)[x] == multiset{a[0]}[x] + multiset(a[1..])[x];
          assert multiset(b)[x] == multiset{a[0]}[x] + multiset(b[1..])[x];
        }
      }
      StrictOrderDeterminesSequence(a[1..], b[1..]);
    }
  }

  lemma ListingHasNoRepeats(all: seq<Job>, docs: Docs, i: int, j: int)
    requires IsListing(all, docs) && 0 <= i < j < |all|
    ensures all[i] != all[j]
  {
    var x := all[i];
    assert all == all[..j] + all[j..];
    assert all[..j][i] == x;
    assert multiset(all)[x] == multiset(all[..j])[x] + multiset(all[j..])[x];
    assert multiset(docs.Values)[x] <= 1;
    assert multiset(all[j..])[x] == 0;
    assert all[j..][0] == all[j];
  }

  /** When creation times are distinct, the newest-first listing of a store is unique. */
  lemma ListingUnique(a: seq<Job>, b: seq<Job>, docs: Docs)
    requires Keyed(docs) && DistinctCreationTimes(docs)
    requires IsListing(a, docs) && IsListing(b, docs)
    ensures a == b
  {
    forall i, j | 0 <= i < j < |a| ensures a[i].createdAt > a[j].createdAt {
      ListingHasNoRepeats(a, docs, i, j);
      assert a[i] in multiset(docs.Values) && a[j] in multiset(docs.Values);
    }
    StrictOrderDeterminesSequence(a, b);
  }

  /** ... and so is every page: `List` is deterministic when no two jobs share a creation time. */
  lemma PageDetermined(p: seq<Job>, q: seq<Job>, docs: Docs, skip: nat, limit: int)
    requires Keyed(docs) && DistinctCreationTimes(docs)
    requires IsPageOf(p, docs, skip, limit) && IsPageOf(q, docs, skip, limit)
    ensures p == q
  {
    var a :| IsListing(a, docs) && p == Window(a, skip, limit);
    var b :| IsListing(b, docs) && q == Window(b, skip, limit);
    ListingUnique(a, b, docs);
  }

  /**
   * The skip computation as written: for page 2^62 and limit 4 the product
   * 2^64 - 4 wraps to -4, so the find is sent a negative skip and fails,
   * while the intended skip is positive and yields an empty page.
   */
  lemma SkipOverflowExample()
    ensures IsInt64(0x4000_0000_0000_0000) && (0x4000_0000_0000_0000 - 1) * 4 > 0
    ensures SkipAsWritten(0x4000_0000_0000_0000, 4) == -4
    ensures Skip(0x4000_0000_0000_0000, 4) == MaxInt64
    ensures SkipAsWritten(0x4000_0000_0000_0001, 4) == 0
    ensures Skip(0x4000_0000_0000_0001, 4) == MaxInt64
  {
  }

  /**
   * With the saturated skip, a page that starts past the end of the listing
   * is empty, however large the page number.
   */
  lemma PastTheEndPageIsEmpty(all: seq<Job>, page: int, limit: int)
    requires page >= 1 && limit >= 1 && |all| <= MaxInt64
    requires (page - 1) * limit >= |all|
    ensures Window(all, Skip(page, limit), limit) == []
  {
    assert Skip(page, limit) >= |all|;
  }

  /** Saturating the skip changes no page of a listing that fits in an int64 count. */
  lemma SaturatedSkipSamePage(all: seq<Job>, page: int, limit: int)
    requires page >= 1 && limit >= 0 && |all| <= MaxInt64
    ensures Window(all, Skip(page, limit), limit) == Window(all, (page - 1) * limit, limit)
  {
    assert Min(Skip(page, limit), |all|) == Min((page - 1) * limit, |all|);
  }

  class JobsRepository {
    const collection: JobCollection

    constructor (collection: JobCollection)
      ensures this.collection == collection
    {
      this.collection := collection;
    }

    /**
     * `Create`: the record gets the fresh id and the current time as both
     * timestamps, and is inserted; an id already stored is refused.
     */
    method Create(job: Job, newId: ObjectId, now: Time) returns (stored: Job, err: Option<Error>)
      requires collection.Valid()
      modifies collection
      ensures collection.Valid()
      ensures stored == job.(id := newId, createdAt := now, updatedAt := now)
      ensures err.None? <==> newId !in old(collection.docs)
      ensures err.Some? ==> err == Some(DuplicateKey) && collection.docs == old(collection.docs)
      ensures err.None? ==> collection.docs == old(collection.docs)[newId := stored]
    {
      stored := job.(id := newId, createdAt := now, updatedAt := now);
      if newId in collection.docs {
        return stored, Some(DuplicateKey);
      }
      collection.docs := collection.docs[newId := stored];
      err := None;
    }

    /** `GetByID`: a malformed id is an error; an id that matches nothing is absent, not an error. */
    method GetByID(id: string) returns (r: Result<Option<Job>, Error>)
      ensures FromHex(id).None? ==> r == Failure(InvalidHex)
      ensures FromHex(id).Some? ==> r.Success?
      ensures FromHex(id).Some? && FromHex(id).value !in collection.docs ==> r == Success(None)
      ensures FromHex(id).Some? && FromHex(id).value in collection.docs ==>
                r == Success(Some(collection.docs[FromHex(id).value]))
    {
      var key := FromHex(id);
      if key.None? {
        return Failure(InvalidHex);
      }
      if key.value !in collection.docs {
        return Success(None);
      }
      r := Success(Some(collection.docs[key.value]));
    }

    /**
     * `List`: the total counts every stored job whatever the page; the jobs
     * are the window at `(page - 1) * limit`, computed with 64-bit wrap-around,
     * of the newest-first listing. A skip that wrapped negative is refused.
     */
    method List(page: int, limit: int) returns (r: Result<Page, Error>)
      requires collection.Valid()
      ensures SkipAsWritten(page, limit) < 0 ==> r == Failure(NegativeSkip)
      ensures SkipAsWritten(page, limit) >= 0 ==>
                r.Success? && r.value.total == |collection.docs| &&
                IsPageOf(r.value.jobs, collection.docs, SkipAsWritten(page, limit), limit)
      ensures 0 <= (page - 1) * limit <= MaxInt64 ==>
                r.Success? && IsPageOf(r.value.jobs, collection.docs, (page - 1) * limit, limit)
    {
      var total := |collection.docs|;
      var skip := SkipAsWritten(page, limit);
      if skip < 0 {
        return Failure(NegativeSkip);
      }
      var all := NewestFirstListing(collection.docs);
      r := Success(Page(Window(all, skip, limit), total));
    }

    /** `UpdateStatus`: an unconditional write of status and updated_at. */
    method UpdateStatus(id: string, status: JobStatus, now: Time) returns (err: Option<Error>)
      requires collection.Valid()
      modifies collection
      ensures collection.Valid()
      ensures FromHex(id).None? ==> err == Some(InvalidHex) && collection.docs == old(collection.docs)
      ensures FromHex(id).Some? ==>
                err.None? && collection.docs == SetStatus(old(collection.docs), FromHex(id).value, status, now)
    {
      var key := FromHex(id);
      if key.None? {
        return Some(InvalidHex);
      }
      collection.docs := SetStatus(collection.docs, key.value, status, now);
      err := None;
    }

    /** `UpdateStatusWithRetry`: an unconditional write of status, retry_count and updated_at. */
    method UpdateStatusWithRetry(id: string, status: JobStatus, retryCount: int, now: Time) returns (err: Option<Error>)
      requires collection.Valid()
      modifies collection
      ensures collection.Valid()
      ensures FromHex(id).None? ==> err == Some(InvalidHex) && collection.docs == old(collection.docs)
      ensures FromHex(id).Some? ==>
                err.None? &&
                collection.docs == SetStatusAndRetry(old(collection.docs), FromHex(id).value, status, retryCount, now)
    {
      var key := FromHex(id);
      if key.None? {
        return Some(InvalidHex);
      }
      collection.docs := SetStatusAndRetry(collection.docs, key.value, status, retryCount, now);
      err := None;
    }

    /** `Update`: the caller's record gets a fresh updated_at and replaces the stored one with its id. */
    method Update(job: Job, now: Time) returns (stored: Job, err: Option<Error>)
      requires collection.Valid()
      modifies collection
      ensures collection.Valid()
      ensures stored == job.(updatedAt := now) && err.None?
      ensures collection.docs == ReplaceRecord(old(collection.docs), stored)
    {
      stored := job.(updatedAt := now);
      collection.docs := ReplaceRecord(collection.docs, stored);
      err := None;
    }
  }
}
