/** Job lists (backend/app/services/connectors.py): pages merged by a dictionary, sorted, cut off. */
module JobPages {
  import opened Common

  /** A job record: "type" and "id" may be missing, "started" is the text it is sorted by. */
  datatype Job = Job(kind: Option<string>, id: string, status: string, started: string)

  // ----- Sorting by "started", latest first -----

  predicate Latest(jobs: seq<Job>)
  {
    forall i, j :: 0 <= i < j < |jobs| ==> StringLe(jobs[j].started, jobs[i].started)
  }

  function Place(job: Job, jobs: seq<Job>): (r: seq<Job>)
    ensures multiset(r) == multiset{job} + multiset(jobs)
  {
    if jobs == [] then [job]
    else if StringLe(jobs[0].started, job.started) then [job] + jobs
    else
      assert jobs == [jobs[0]] + jobs[1..];
      [jobs[0]] + Place(job, jobs[1..])
  }

  lemma {:induction false} PlaceKeepsOrder(job: Job, jobs: seq<Job>)
    requires Latest(jobs)
    ensures Latest(Place(job, jobs))
  {
    if jobs == [] {
    } else if StringLe(jobs[0].started, job.started) {
      forall j | 0 <= j < |jobs| ensures StringLe(jobs[j].started, job.started) {
        StringLeTotal(jobs[0].started, jobs[0].started);
        StringLeTransitive(jobs[j].started, jobs[0].started, job.started);
      }
    } else {
      PlaceKeepsOrder(job, jobs[1..]);
      StringLeTotal(job.started, jobs[0].started);
      var rest := Place(job, jobs[1..]);
      forall j | 0 <= j < |rest| ensures StringLe(rest[j].started, jobs[0].started) {
        assert rest[j] in multiset(rest);
        assert rest[j] == job || rest[j] in jobs[1..];
      }
    }
  }

  /** list.sort(key=started, reverse=True): stable, so an earlier job stays before an equal one. */
  function SortLatest(jobs: seq<Job>): (r: seq<Job>)
    ensures multiset(r) == multiset(jobs)
    ensures Latest(r)
  {
    if jobs == [] then []
    else
      assert jobs == [jobs[0]] + jobs[1..];
      PlaceKeepsOrder(jobs[0], SortLatest(jobs[1..]));
      Place(jobs[0], SortLatest(jobs[1..]))
  }

  function Take(jobs: seq<Job>, limit: nat): seq<Job>
  {
    if limit < |jobs| then jobs[..limit] else jobs
  }

  // ----- Counting against a threshold -----

  /** How many of the jobs started at t or later. */
  function CountSince(jobs: seq<Job>, t: string): nat
  {
    if jobs == [] then 0 else (if StringLe(t, jobs[0].started) then 1 else 0) + CountSince(jobs[1..], t)
  }

  function Min(a: nat, b: nat): nat { if a < b then a else b }

  lemma {:induction false} CountConcat(a: seq<Job>, b: seq<Job>, t: string)
    ensures CountSince(a + b, t) == CountSince(a, t) + CountSince(b, t)
  {
    if a == [] {
      assert a + b == b;
    } else {
      assert (a + b)[1..] == a[1..] + b;
      CountConcat(a[1..], b, t);
    }
  }

  /** Takes the first of some out of all. */
  lemma Pull(some: seq<Job>, all: seq<Job>) returns (pre: seq<Job>, post: seq<Job>)
    requires some != [] && multiset(some) <= multiset(all)
    ensures all == pre + ([some[0]] + post)
    ensures multiset(some[1..]) <= multiset(pre + post)
    ensures multiset(some) == multiset(all) ==> multiset(some[1..]) == multiset(pre + post)
  {
    assert some[0] in multiset(some) && some[0] in multiset(all);
    var k :| 0 <= k < |all| && all[k] == some[0];
    pre, post := all[..k], all[k + 1..];
    Without(all, k);
    Without(some, 0);
    assert some[..0] + some[1..] == some[1..];
  }

  lemma Without(jobs: seq<Job>, k: nat)
    requires k < |jobs|
    ensures jobs == jobs[..k] + ([jobs[k]] + jobs[k + 1..])
    ensures multiset(jobs[..k] + jobs[k + 1..]) == multiset(jobs) - multiset{jobs[k]}
  {
  }

  lemma {:induction false} CountMonotone(a: seq<Job>, b: seq<Job>, t: string)
    requires multiset(a) <= multiset(b)
    ensures CountSince(a, t) <= CountSince(b, t)
    ensures multiset(a) == multiset(b) ==> CountSince(a, t) == CountSince(b, t)
  {
    if a == [] {
      if b != [] { assert b[0] in multiset(b); }
    } else {
      var pre, post := Pull(a, b);
      CountMonotone(a[1..], pre + post, t);
      CountConcat(pre, post, t);
      CountConcat(pre, [a[0]] + post, t);
    }
  }

  /** In a list sorted latest first, position i started at t or later iff more than i jobs did. */
  lemma {:induction false} RankByCount(jobs: seq<Job>, i: nat, t: string)
    requires Latest(jobs) && i < |jobs|
    ensures StringLe(t, jobs[i].started) <==> CountSince(jobs, t) > i
  {
    var front, back := jobs[..i], jobs[i..];
    assert jobs == front + back && back[0] == jobs[i];
    CountConcat(front, back, t);
    if StringLe(t, jobs[i].started) {
      forall x | x in front ensures StringLe(t, x.started) {
        StringLeTransitive(t, jobs[i].started, x.started);
      }
      AllCount(front, t);
    } else {
      forall x | x in back ensures !StringLe(t, x.started) {
        if StringLe(t, x.started) {
          StringLeTotal(jobs[i].started, x.started);
          StringLeTransitive(t, x.started, jobs[i].started);
        }
      }
      NoneCount(back, t);
      CountAtMost(front, t);
    }
  }

  lemma {:induction false} AllCount(jobs: seq<Job>, t: string)
    requires forall x :: x in jobs ==> StringLe(t, x.started)
    ensures CountSince(jobs, t) == |jobs|
  {
    if jobs != [] { AllCount(jobs[1..], t); }
  }

  lemma {:induction false} NoneCount(jobs: seq<Job>, t: string)
    requires forall x :: x in jobs ==> !StringLe(t, x.started)
    ensures CountSince(jobs, t) == 0
  {
    if jobs != [] { NoneCount(jobs[1..], t); }
  }

  lemma {:induction false} CountAtMost(jobs: seq<Job>, t: string)
    ensures CountSince(jobs, t) <= |jobs|
    ensures CountSince(jobs, []) == |jobs|
  {
    if jobs != [] { CountAtMost(jobs[1..], t); }
  }

  lemma TakeCount(jobs: seq<Job>, limit: nat, t: string)
    requires Latest(jobs)
    ensures CountSince(Take(jobs, limit), t) == Min(limit, CountSince(jobs, t))
  {
    CountAtMost(jobs, t);
    if limit < |jobs| {
      var front, back := jobs[..limit], jobs[limit..];
      assert jobs == front + back;
      CountConcat(front, back, t);
      CountAtMost(front, t);
      RankByCount(jobs, limit, t);
      if CountSince(jobs, t) > limit {
        forall x | x in front ensures StringLe(t, x.started) {
          StringLeTransitive(t, jobs[limit].started, x.started);
        }
        AllCount(front, t);
      } else {
        forall x | x in back ensures !StringLe(t, x.started) {
          if StringLe(t, x.started) {
            var k :| limit <= k < |jobs| && jobs[k] == x;
            StringLeTransitive(t, x.started, jobs[limit].started);
          }
        }
        NoneCount(back, t);
      }
    }
  }

  // ----- What a page has to be -----

  /** Enough of all for the latest limit of them: some of its jobs, and against every threshold
      as many as all has, up to the limit. */
  ghost predicate Covers(page: seq<Job>, all: seq<Job>, limit: nat)
  {
    multiset(page) <= multiset(all) &&
    forall t :: Min(limit, CountSince(page, t)) == Min(limit, CountSince(all, t))
  }

  /** Where order_by=-started puts jobs that have not started; PostgreSQL puts them first. */
  datatype NullOrder = UnstartedLast | UnstartedFirst

  /** The service may leave out x in favour of y. */
  predicate Behind(x: Job, y: Job, order: NullOrder)
  {
    if order.UnstartedFirst? then y.started == "" || (x.started != "" && StringLe(x.started, y.started))
    else StringLe(x.started, y.started)
  }

  /** What the service answers for order_by=-started and page_size=size: its first jobs, ties in any order. */
  ghost predicate IsPage(page: seq<Job>, all: seq<Job>, size: nat, order: NullOrder)
  {
    multiset(page) <= multiset(all) && |page| == Min(size, |all|) &&
    forall x, y :: x in multiset(all) - multiset(page) && y in page ==> Behind(x, y, order)
  }

  /** The first jobs of the service are the latest ones: it holds no more than a page, or started and
      unstarted jobs do not mix, or it puts the unstarted ones last. */
  ghost predicate Alike(all: seq<Job>, size: nat, order: NullOrder)
  {
    order.UnstartedLast? || |all| <= size ||
    (forall x :: x in all ==> x.started != "") || forall x :: x in all ==> x.started == ""
  }

  lemma AllOnThePage(page: seq<Job>, all: seq<Job>)
    requires multiset(page) <= multiset(all) && |page| == |all|
    ensures multiset(page) == multiset(all)
  {
    assert |multiset(all) - multiset(page)| == 0;
  }

  lemma PageCovers(page: seq<Job>, all: seq<Job>, size: nat, limit: nat, order: NullOrder)
    requires IsPage(page, all, size, order) && limit <= size && Alike(all, size, order)
    ensures Covers(page, all, limit)
  {
    if |page| == |all| { AllOnThePage(page, all); }
    forall x, y | x in multiset(all) - multiset(page) && y in page ensures StringLe(x.started, y.started) {
      assert x in multiset(all) && y in multiset(page);
    }
    forall t ensures Min(limit, CountSince(page, t)) == Min(limit, CountSince(all, t)) {
      CountMonotone(page, all, t);
      if |page| < |all| && CountSince(page, t) < limit {
        MissedJob(page, all, t);
      }
    }
  }

  /** Exactly when one page is enough: a page that mixes started with unstarted jobs and leaves some out
      always misses a latest job when the service puts the unstarted ones first. */
  lemma PageCoversExactly(page: seq<Job>, all: seq<Job>, size: nat, order: NullOrder)
    requires IsPage(page, all, size, order) && size >= 1
    ensures Covers(page, all, size) <==> Alike(all, size, order)
  {
    if Alike(all, size, order) {
      PageCovers(page, all, size, size, order);
    } else {
      var rest := SomeSeq(multiset(all) - multiset(page));
      CountRest(page, all, rest, AnyStart);
      UnstartedOnPage(page, all, size);
      StartedLeftOut(page, all, rest, size);
      assert Min(size, CountSince(page, AnyStart)) != Min(size, CountSince(all, AnyStart));
    }
  }

  /** The least text but the empty one: it counts the started jobs. */
  const AnyStart := "\U{0}"

  lemma AnyStartCounts(started: string)
    ensures StringLe(AnyStart, started) <==> started != ""
  {
    assert AnyStart[1..] == "";
  }

  lemma {:induction false} CountStarted(jobs: seq<Job>, job: Job)
    requires job in jobs
    ensures job.started != "" ==> CountSince(jobs, AnyStart) >= 1
    ensures job.started == "" ==> CountSince(jobs, AnyStart) < |jobs|
  {
    AnyStartCounts(jobs[0].started);
    CountAtMost(jobs[1..], AnyStart);
    if job != jobs[0] {
      assert job in jobs[1..];
      CountStarted(jobs[1..], job);
    }
  }

  lemma UnstartedOnPage(page: seq<Job>, all: seq<Job>, size: nat)
    requires IsPage(page, all, size, UnstartedFirst) && size >= 1 && !Alike(all, size, UnstartedFirst)
    ensures CountSince(page, AnyStart) < |page| == size
  {
    var u :| u in all && u.started == "";
    assert u in multiset(all);
    if u in page {
      CountStarted(page, u);
    } else {
      assert u in multiset(all) - multiset(page) && page[0] in page;
      assert Behind(u, page[0], UnstartedFirst);
      CountStarted(page, page[0]);
    }
  }

  /** A started job is left out: were all the missing ones unstarted, so would be the whole page. */
  lemma StartedLeftOut(page: seq<Job>, all: seq<Job>, rest: seq<Job>, size: nat)
    requires IsPage(page, all, size, UnstartedFirst) && size >= 1 && !Alike(all, size, UnstartedFirst)
    requires multiset(rest) == multiset(all) - multiset(page)
    ensures CountSince(rest, AnyStart) >= 1
  {
    var s :| s in all && s.started != "";
    assert s in multiset(all);
    if s in multiset(rest) {
      CountStarted(rest, s);
    } else {
      assert s in multiset(page) && |multiset(rest)| == |all| - |page|;
      assert rest != [];
      assert rest[0] in multiset(rest);
      assert Behind(rest[0], s, UnstartedFirst);
      CountStarted(rest, rest[0]);
    }
  }

  /** Where all counts more than the page, a job the page lacks started at t or later. */
  lemma MissedJob(page: seq<Job>, all: seq<Job>, t: string)
    requires multiset(page) <= multiset(all) && CountSince(page, t) < |page|
    requires forall x, y :: x in multiset(all) - multiset(page) && y in page ==> StringLe(x.started, y.started)
    ensures CountSince(page, t) == CountSince(all, t)
  {
    var rest := SomeSeq(multiset(all) - multiset(page));
    CountRest(page, all, rest, t);
    if forall y :: y in page ==> StringLe(t, y.started) {
      AllCount(page, t);
    } else {
      var y :| y in page && !StringLe(t, y.started);
      forall x | x in rest ensures !StringLe(t, x.started) {
        assert x in multiset(rest);
        if StringLe(t, x.started) { StringLeTransitive(t, x.started, y.started); }
      }
      NoneCount(rest, t);
    }
  }

  lemma CountRest(page: seq<Job>, all: seq<Job>, rest: seq<Job>, t: string)
    requires multiset(page) <= multiset(all) && multiset(rest) == multiset(all) - multiset(page)
    ensures CountSince(all, t) == CountSince(page, t) + CountSince(rest, t)
  {
    assert multiset(page + rest) == multiset(all);
    CountMonotone(page + rest, all, t);
    CountConcat(page, rest, t);
  }

  ghost function SomeSeq(m: multiset<Job>): (r: seq<Job>)
    ensures multiset(r) == m
    decreases |m|
  {
    if m == multiset{} then [] else
      var x :| x in m;
      [x] + SomeSeq(m - multiset{x})
  }

  lemma CoversConcat(p1: seq<Job>, a1: seq<Job>, p2: seq<Job>, a2: seq<Job>, limit: nat)
    requires Covers(p1, a1, limit) && Covers(p2, a2, limit)
    ensures Covers(p1 + p2, a1 + a2, limit)
  {
    forall t ensures Min(limit, CountSince(p1 + p2, t)) == Min(limit, CountSince(a1 + a2, t)) {
      CountConcat(p1, p2, t);
      CountConcat(a1, a2, t);
      assert Min(limit, CountSince(p1, t)) == Min(limit, CountSince(a1, t));
      assert Min(limit, CountSince(p2, t)) == Min(limit, CountSince(a2, t));
    }
  }

  /** Sorting and cutting off a covering list gives a covering page. */
  lemma SortedCutCovers(page: seq<Job>, all: seq<Job>, limit: nat)
    requires Covers(page, all, limit)
    ensures Covers(Take(SortLatest(page), limit), all, limit)
  {
    var sorted := SortLatest(page);
    assert sorted == Take(sorted, limit) + sorted[|Take(sorted, limit)|..];
    forall t ensures Min(limit, CountSince(Take(sorted, limit), t)) == Min(limit, CountSince(all, t)) {
      TakeCount(sorted, limit, t);
      CountMonotone(sorted, page, t);
      assert Min(limit, CountSince(page, t)) == Min(limit, CountSince(all, t));
    }
  }

  function Starts(jobs: seq<Job>): (r: seq<string>)
    ensures |r| == |jobs| && forall i :: 0 <= i < |jobs| ==> r[i] == jobs[i].started
  {
    seq(|jobs|, i requires 0 <= i < |jobs| => jobs[i].started)
  }

  lemma CoversSorted(page: seq<Job>, all: seq<Job>, limit: nat)
    requires Covers(page, all, limit)
    ensures Covers(SortLatest(page), SortLatest(all), limit)
  {
    forall t ensures Min(limit, CountSince(SortLatest(page), t)) == Min(limit, CountSince(SortLatest(all), t)) {
      CountMonotone(SortLatest(page), page, t);
      CountMonotone(SortLatest(all), all, t);
    }
  }

  lemma SameStarts(p: seq<Job>, a: seq<Job>, limit: nat)
    requires Latest(p) && Latest(a) && Covers(p, a, limit)
    ensures Starts(Take(p, limit)) == Starts(Take(a, limit))
  {
    CountAtMost(p, []);
    CountAtMost(a, []);
    assert Min(limit, CountSince(p, [])) == Min(limit, CountSince(a, []));
    forall i | 0 <= i < Min(limit, |p|) ensures p[i].started == a[i].started {
      SamePosition(p, a, i, p[i].started, limit);
      SamePosition(p, a, i, a[i].started, limit);
      StringLeTotal(p[i].started, p[i].started);
      StringLeTotal(a[i].started, a[i].started);
      StringLeTotal(p[i].started, a[i].started);
    }
  }

  /** Top-k of top-ks: the cut of a covering list has the start times of the cut of all jobs. */
  lemma {:induction false} TopOfTops(page: seq<Job>, all: seq<Job>, limit: nat)
    requires Covers(page, all, limit)
    ensures Starts(Take(SortLatest(page), limit)) == Starts(Take(SortLatest(all), limit))
  {
    CoversSorted(page, all, limit);
    SameStarts(SortLatest(page), SortLatest(all), limit);
  }

  lemma SamePosition(p: seq<Job>, a: seq<Job>, i: nat, t: string, limit: nat)
    requires Latest(p) && Latest(a) && i < |p| && i < |a| && i < limit
    requires Min(limit, CountSince(p, t)) == Min(limit, CountSince(a, t))
    ensures StringLe(t, p[i].started) <==> StringLe(t, a[i].started)
  {
    RankByCount(p, i, t);
    RankByCount(a, i, t);
  }

  // ----- Merging by a dictionary -----

  /** Every job has an id, and no key occurs twice. */
  ghost predicate UniqueKeys(jobs: seq<Job>, keyOf: Job -> string)
  {
    UniqueIn(multiset(jobs), keyOf)
  }

  ghost predicate UniqueIn(jobs: multiset<Job>, keyOf: Job -> string)
  {
    (forall x :: x in jobs ==> x.id != "" && jobs[x] == 1) &&
    forall x, y :: x in jobs && y in jobs && keyOf(x) == keyOf(y) ==> x == y
  }

  lemma SubsetUnique(some: seq<Job>, all: seq<Job>, keyOf: Job -> string)
    requires multiset(some) <= multiset(all) && UniqueKeys(all, keyOf)
    ensures UniqueKeys(some, keyOf)
  {
  }

  lemma OneMoreUnique(job: Job, jobs: seq<Job>, keyOf: Job -> string)
    requires job.id != "" && UniqueKeys(jobs, keyOf)
    requires forall x :: x in jobs ==> keyOf(x) != keyOf(job)
    ensures UniqueKeys([job] + jobs, keyOf)
  {
  }

  lemma FirstIsAlone(jobs: seq<Job>, keyOf: Job -> string)
    requires jobs != [] && UniqueKeys(jobs, keyOf)
    ensures jobs[0].id != "" && UniqueKeys(jobs[1..], keyOf)
    ensures forall x :: x in jobs[1..] ==> keyOf(x) != keyOf(jobs[0])
  {
    assert jobs == [jobs[0]] + jobs[1..];
    SubsetUnique(jobs[1..], jobs, keyOf);
    assert jobs[0] in multiset(jobs);
    forall x | x in jobs[1..] ensures keyOf(x) != keyOf(jobs[0]) {
      assert x in multiset(jobs[1..]) && x in multiset(jobs);
    }
  }

  /** d[keyOf(job)] = job, for a dictionary given by its values in insertion order: a job with the
      same key is replaced in its place, a new key comes last. */
  function Put(d: seq<Job>, job: Job, keyOf: Job -> string): (r: seq<Job>)
    ensures forall x :: x in r ==> x == job || x in d
    ensures (forall x :: x in d ==> keyOf(x) != keyOf(job)) ==> r == d + [job]
  {
    if d == [] then [job]
    else if keyOf(d[0]) == keyOf(job) then [job] + d[1..]
    else [d[0]] + Put(d[1..], job, keyOf)
  }

  lemma {:induction false} PutUnique(d: seq<Job>, job: Job, keyOf: Job -> string)
    requires UniqueKeys(d, keyOf) && job.id != ""
    ensures UniqueKeys(Put(d, job, keyOf), keyOf)
  {
    if d == [] {
      OneMoreUnique(job, d, keyOf);
    } else {
      FirstIsAlone(d, keyOf);
      if keyOf(d[0]) == keyOf(job) {
        OneMoreUnique(job, d[1..], keyOf);
      } else {
        PutUnique(d[1..], job, keyOf);
        OneMoreUnique(d[0], Put(d[1..], job, keyOf), keyOf);
      }
    }
  }

  /** Merging the records that have an id, in order. */
  function PutAll(d: seq<Job>, items: seq<Job>, keyOf: Job -> string): seq<Job>
    decreases |items|
  {
    if items == [] then d
    else PutAll(if items[0].id == "" then d else Put(d, items[0], keyOf), items[1..], keyOf)
  }

  lemma {:induction false} PutAllConcat(d: seq<Job>, a: seq<Job>, b: seq<Job>, keyOf: Job -> string)
    ensures PutAll(d, a + b, keyOf) == PutAll(PutAll(d, a, keyOf), b, keyOf)
    decreases |a|
  {
    if a == [] {
      assert a + b == b;
    } else {
      assert (a + b)[1..] == a[1..] + b;
      PutAllConcat(if a[0].id == "" then d else Put(d, a[0], keyOf), a[1..], b, keyOf);
    }
  }

  lemma {:induction false} PutAllUnique(d: seq<Job>, items: seq<Job>, keyOf: Job -> string)
    requires UniqueKeys(d, keyOf)
    ensures UniqueKeys(PutAll(d, items, keyOf), keyOf)
    decreases |items|
  {
    if items != [] {
      if items[0].id == "" {
        PutAllUnique(d, items[1..], keyOf);
      } else {
        PutUnique(d, items[0], keyOf);
        PutAllUnique(Put(d, items[0], keyOf), items[1..], keyOf);
      }
    }
  }

  /** Where no key repeats, merging keeps every record. */
  lemma {:induction false} PutAllFresh(d: seq<Job>, items: seq<Job>, keyOf: Job -> string)
    requires UniqueKeys(d + items, keyOf)
    ensures PutAll(d, items, keyOf) == d + items
    decreases |items|
  {
    if items == [] {
      assert d + items == d;
    } else {
      NewKey(d, items, keyOf);
      assert (d + [items[0]]) + items[1..] == d + items;
      PutAllFresh(d + [items[0]], items[1..], keyOf);
    }
  }

  lemma {:induction false} PutHolds(d: seq<Job>, job: Job, keyOf: Job -> string, x: Job)
    ensures job in Put(d, job, keyOf)
    ensures x in d && keyOf(x) != keyOf(job) ==> x in Put(d, job, keyOf)
  {
    if d != [] {
      PutHolds(d[1..], job, keyOf, x);
      assert d == [d[0]] + d[1..];
    }
  }

  lemma {:induction false} PutAllHolds(d: seq<Job>, items: seq<Job>, keyOf: Job -> string, x: Job)
    requires x in d && forall y :: y in items ==> y.id == "" || keyOf(y) != keyOf(x)
    ensures x in PutAll(d, items, keyOf)
    decreases |items|
  {
    if items != [] {
      assert items[0] in items && forall y :: y in items[1..] ==> y in items;
      PutHolds(d, items[0], keyOf, x);
      PutAllHolds(if items[0].id == "" then d else Put(d, items[0], keyOf), items[1..], keyOf, x);
    }
  }

  /** Of several records with one key the merged list holds the last. */
  lemma LastRecordWins(before: seq<Job>, x: Job, later: seq<Job>, keyOf: Job -> string)
    requires x.id != "" && forall y :: y in later ==> y.id == "" || keyOf(y) != keyOf(x)
    ensures x in PutAll([], before + [x] + later, keyOf)
  {
    PutAllConcat([], before + [x], later, keyOf);
    PutAllConcat([], before, [x], keyOf);
    var merged := PutAll([], before, keyOf);
    assert [x][1..] == [] && PutAll(merged, [x], keyOf) == Put(merged, x, keyOf);
    PutHolds(merged, x, keyOf, x);
    PutAllHolds(Put(merged, x, keyOf), later, keyOf, x);
  }

  lemma NewKey(d: seq<Job>, items: seq<Job>, keyOf: Job -> string)
    requires items != [] && UniqueKeys(d + items, keyOf)
    ensures items[0].id != "" && forall x :: x in d ==> keyOf(x) != keyOf(items[0])
  {
  }

  // ----- _controller_job_page -----

  datatype Wanted = AnyStatus | OneStatus(status: string) | StatusIn(statuses: seq<string>)

  function IdOf(job: Job): string { job.id }

  function WithStatus(all: seq<Job>, status: string): seq<Job>
  {
    if all == [] then [] else (if all[0].status == status then [all[0]] else []) + WithStatus(all[1..], status)
  }

  /** The jobs a call asks for. An empty status text does not filter. */
  function Asked(all: seq<Job>, wanted: Wanted): seq<Job>
  {
    match wanted
    case AnyStatus => all
    case OneStatus(status) => if status == "" then all else WithStatus(all, status)
    case StatusIn(statuses) => WithStatusIn(all, statuses)
  }

  function WithStatusIn(all: seq<Job>, statuses: seq<string>): seq<Job>
  {
    if all == [] then [] else (if all[0].status in statuses then [all[0]] else []) + WithStatusIn(all[1..], statuses)
  }

  function Max(a: nat, b: nat): nat { if a < b then b else a }

  /** What the service answers to the requests of one call: one request, or one for each status. */
  ghost predicate Answers(batches: seq<seq<Job>>, all: seq<Job>, wanted: Wanted, limit: nat, order: NullOrder)
  {
    match wanted
    case StatusIn(statuses) =>
      |batches| == |statuses| &&
      forall i :: 0 <= i < |statuses| ==> IsPage(batches[i], WithStatus(all, statuses[i]), Max(limit, 1), order)
    case _ => |batches| == 1 && IsPage(batches[0], Asked(all, wanted), limit, order)
  }

  /** Each page the call asks for holds the latest jobs it could hold. */
  ghost predicate PagesAlike(all: seq<Job>, wanted: Wanted, limit: nat, order: NullOrder)
  {
    match wanted
    case StatusIn(statuses) =>
      forall i :: 0 <= i < |statuses| ==> Alike(WithStatus(all, statuses[i]), Max(limit, 1), order)
    case _ => Alike(Asked(all, wanted), limit, order)
  }

  ghost predicate Distinct(s: seq<string>)
  {
    forall i, j :: 0 <= i < j < |s| ==> s[i] != s[j]
  }

  function Flat(batches: seq<seq<Job>>): seq<Job>
  {
    if batches == [] then [] else Flat(batches[..|batches| - 1]) + batches[|batches| - 1]
  }

  lemma {:induction false} OneMoreStatus(all: seq<Job>, statuses: seq<string>, status: string)
    requires status !in statuses
    ensures multiset(WithStatusIn(all, statuses + [status])) ==
      multiset(WithStatusIn(all, statuses)) + multiset(WithStatus(all, status))
  {
    if all != [] {
      OneMoreStatus(all[1..], statuses, status);
      assert all[0].status in statuses + [status] <==> all[0].status in statuses || all[0].status == status;
    }
  }

  lemma {:induction false} NoStatus(all: seq<Job>)
    ensures WithStatusIn(all, []) == []
  {
    if all != [] { NoStatus(all[1..]); }
  }

  lemma {:induction false} WithStatusInSubset(all: seq<Job>, statuses: seq<string>)
    ensures multiset(WithStatusIn(all, statuses)) <= multiset(all)
  {
    if all != [] {
      assert all == [all[0]] + all[1..];
      WithStatusInSubset(all[1..], statuses);
    }
  }

  lemma CoversSameMultiset(page: seq<Job>, a: seq<Job>, b: seq<Job>, limit: nat)
    requires Covers(page, a, limit) && multiset(a) == multiset(b)
    ensures Covers(page, b, limit)
  {
    forall t ensures Min(limit, CountSince(page, t)) == Min(limit, CountSince(b, t)) {
      CountMonotone(a, b, t);
      assert Min(limit, CountSince(page, t)) == Min(limit, CountSince(a, t));
    }
  }

  lemma OneMoreBatch(flat: seq<Job>, batch: seq<Job>, all: seq<Job>, statuses: seq<string>, status: string, limit: nat,
                     order: NullOrder)
    requires status !in statuses && Covers(flat, WithStatusIn(all, statuses), limit)
    requires IsPage(batch, WithStatus(all, status), Max(limit, 1), order) &&
      Alike(WithStatus(all, status), Max(limit, 1), order)
    ensures Covers(flat + batch, WithStatusIn(all, statuses + [status]), limit)
  {
    var a, b := WithStatusIn(all, statuses), WithStatus(all, status);
    PageCovers(batch, b, Max(limit, 1), limit, order);
    CoversConcat(flat, a, batch, b, limit);
    OneMoreStatus(all, statuses, status);
    CoversSameMultiset(flat + batch, a + b, WithStatusIn(all, statuses + [status]), limit);
  }

  /** The batches together cover the jobs of all the statuses. */
  lemma {:induction false} BatchesCover(batches: seq<seq<Job>>, all: seq<Job>, statuses: seq<string>, limit: nat,
                                        order: NullOrder)
    requires Answers(batches, all, StatusIn(statuses), limit, order) &&
      PagesAlike(all, StatusIn(statuses), limit, order)
    requires Distinct(statuses)
    ensures Covers(Flat(batches), WithStatusIn(all, statuses), limit)
  {
    if batches == [] {
      NoStatus(all);
    } else {
      var n := |batches| - 1;
      BatchesCover(batches[..n], all, statuses[..n], limit, order);
      OneMoreBatch(Flat(batches[..n]), batches[n], all, statuses[..n], statuses[n], limit, order);
      assert statuses == statuses[..n] + [statuses[n]];
    }
  }

  method MergeInto(before: seq<Job>, items: seq<Job>, keyOf: Job -> string) returns (merged: seq<Job>)
    ensures merged == PutAll(before, items, keyOf)
  {
    merged := before;
    for i := 0 to |items|
      invariant PutAll(merged, items[i..], keyOf) == PutAll(before, items, keyOf)
    {
      assert items[i..][1..] == items[i + 1..];
      if items[i].id != "" {
        merged := Put(merged, items[i], keyOf);
      }
    }
  }

  /** What both lists do with the records they got. */
  function MergedPage(items: seq<Job>, keyOf: Job -> string, limit: nat): seq<Job>
  {
    Take(SortLatest(PutAll([], items, keyOf)), limit)
  }

  lemma TakeSubset(jobs: seq<Job>, limit: nat)
    ensures multiset(Take(jobs, limit)) <= multiset(jobs)
  {
    assert jobs == Take(jobs, limit) + jobs[|Take(jobs, limit)|..];
  }

  lemma MergedPageUnique(items: seq<Job>, keyOf: Job -> string, limit: nat)
    ensures UniqueKeys(MergedPage(items, keyOf, limit), keyOf)
    ensures Latest(MergedPage(items, keyOf, limit)) && |MergedPage(items, keyOf, limit)| <= limit
  {
    var merged := PutAll([], items, keyOf);
    PutAllUnique([], items, keyOf);
    TakeSubset(SortLatest(merged), limit);
    SubsetUnique(Take(SortLatest(merged), limit), merged, keyOf);
  }

  lemma MergedPageCovers(items: seq<Job>, all: seq<Job>, keyOf: Job -> string, limit: nat)
    requires Covers(items, all, limit) && UniqueKeys(all, keyOf)
    ensures Covers(MergedPage(items, keyOf, limit), all, limit)
    ensures Starts(MergedPage(items, keyOf, limit)) == Starts(Take(SortLatest(all), limit))
  {
    SubsetUnique(items, all, keyOf);
    assert [] + items == items;
    PutAllFresh([], items, keyOf);
    SortedCutCovers(items, all, limit);
    TopOfTops(items, all, limit);
  }

  lemma StatusPageCovers(batches: seq<seq<Job>>, all: seq<Job>, statuses: seq<string>, limit: nat, order: NullOrder)
    requires Answers(batches, all, StatusIn(statuses), limit, order) &&
      PagesAlike(all, StatusIn(statuses), limit, order)
    requires Distinct(statuses) && UniqueKeys(all, IdOf)
    ensures Covers(MergedPage(Flat(batches), IdOf, limit), WithStatusIn(all, statuses), limit)
  {
    BatchesCover(batches, all, statuses, limit, order);
    WithStatusInSubset(all, statuses);
    SubsetUnique(WithStatusIn(all, statuses), all, IdOf);
    MergedPageCovers(Flat(batches), WithStatusIn(all, statuses), IdOf, limit);
  }

  /** One endpoint's jobs. Main result: no id twice, and enough of the asked jobs for the latest limit of them. */
  method ControllerJobPage(ghost all: seq<Job>, wanted: Wanted, limit: nat, batches: seq<seq<Job>>,
                           ghost order: NullOrder)
    returns (page: seq<Job>)
    requires Answers(batches, all, wanted, limit, order)
    ensures wanted.StatusIn? ==> UniqueKeys(page, IdOf) && Latest(page) && |page| <= limit
    ensures (UniqueKeys(all, IdOf) && (wanted.StatusIn? ==> Distinct(wanted.statuses)) &&
             PagesAlike(all, wanted, limit, order)) ==> Covers(page, Asked(all, wanted), limit)
    ensures !wanted.StatusIn? ==> page == batches[0]
  {
    if wanted.StatusIn? {
      if wanted.statuses == [] {
        NoStatus(all);
        return [];
      }
      var merged: seq<Job> := [];
      for i := 0 to |batches|
        invariant merged == PutAll([], Flat(batches[..i]), IdOf)
      {
        PutAllConcat([], Flat(batches[..i]), batches[i], IdOf);
        assert batches[..i + 1][..i] == batches[..i];
        merged := MergeInto(merged, batches[i], IdOf);
      }
      assert batches[..|batches|] == batches;
      page := Take(SortLatest(merged), limit);
      MergedPageUnique(Flat(batches), IdOf, limit);
      if UniqueKeys(all, IdOf) && Distinct(wanted.statuses) && PagesAlike(all, wanted, limit, order) {
        StatusPageCovers(batches, all, wanted.statuses, limit, order);
      }
    } else {
      page := batches[0];
      if PagesAlike(all, wanted, limit, order) {
        PageCovers(page, Asked(all, wanted), limit, limit, order);
      }
    }
  }

  // ----- list_jobs -----

  function MergeKey(job: Job): string
  {
    (if job.kind.None? || job.kind.value == "" then "job" else job.kind.value) + ":" + job.id
  }

  /** item.setdefault("type", "workflow_job") */
  function AsWorkflow(job: Job): Job
  {
    if job.kind.None? then job.(kind := Some("workflow_job")) else job
  }

  function AsWorkflows(jobs: seq<Job>): (r: seq<Job>)
    ensures |r| == |jobs| && forall i :: 0 <= i < |jobs| ==> r[i] == AsWorkflow(jobs[i])
  {
    seq(|jobs|, i requires 0 <= i < |jobs| => AsWorkflow(jobs[i]))
  }

  lemma {:induction false} AsWorkflowsCount(jobs: seq<Job>, t: string)
    ensures CountSince(AsWorkflows(jobs), t) == CountSince(jobs, t)
  {
    if jobs != [] {
      AsWorkflowsCount(jobs[1..], t);
      assert AsWorkflows(jobs)[1..] == AsWorkflows(jobs[1..]);
    }
  }

  lemma AsWorkflowsConcat(a: seq<Job>, b: seq<Job>)
    ensures AsWorkflows(a + b) == AsWorkflows(a) + AsWorkflows(b)
  {
  }

  lemma {:induction false} AsWorkflowsSubset(some: seq<Job>, all: seq<Job>)
    requires multiset(some) <= multiset(all)
    ensures multiset(AsWorkflows(some)) <= multiset(AsWorkflows(all))
  {
    if some != [] {
      var pre, post := Pull(some, all);
      AsWorkflowsSubset(some[1..], pre + post);
      AsWorkflowsConcat(pre, post);
      AsWorkflowsConcat(pre, [some[0]] + post);
      AsWorkflowsConcat([some[0]], post);
      assert some == [some[0]] + some[1..];
      AsWorkflowsConcat([some[0]], some[1..]);
    }
  }

  lemma AsWorkflowsCover(page: seq<Job>, all: seq<Job>, limit: nat)
    requires Covers(page, all, limit)
    ensures Covers(AsWorkflows(page), AsWorkflows(all), limit)
  {
    AsWorkflowsSubset(page, all);
    forall t ensures Min(limit, CountSince(AsWorkflows(page), t)) == Min(limit, CountSince(AsWorkflows(all), t)) {
      AsWorkflowsCount(page, t);
      AsWorkflowsCount(all, t);
      assert Min(limit, CountSince(page, t)) == Min(limit, CountSince(all, t));
    }
  }

  /** Main result: a job list has no job twice, and its start times are those of the latest limit
      jobs of the asked statuses over both endpoints; over the playbook jobs alone when the
      workflow request fails. */
  method ListJobs(ghost playbooks: seq<Job>, ghost workflows: seq<Job>, wanted: Wanted, limit: nat,
                  playbookBatches: seq<seq<Job>>, workflowBatches: Option<seq<seq<Job>>>, ghost order: NullOrder)
    returns (jobs: seq<Job>)
    requires Answers(playbookBatches, playbooks, wanted, limit, order)
    requires workflowBatches.Some? ==> Answers(workflowBatches.value, workflows, wanted, limit, order)
    ensures UniqueKeys(jobs, MergeKey) && Latest(jobs) && |jobs| <= limit
    ensures var reached :=
        Asked(playbooks, wanted) + (if workflowBatches.Some? then AsWorkflows(Asked(workflows, wanted)) else []);
      UniqueKeys(playbooks, IdOf) && UniqueKeys(workflows, IdOf) && UniqueKeys(reached, MergeKey) &&
      (wanted.StatusIn? ==> Distinct(wanted.statuses)) &&
      PagesAlike(playbooks, wanted, limit, order) &&
      (workflowBatches.Some? ==> PagesAlike(workflows, wanted, limit, order)) ==>
        multiset(jobs) <= multiset(reached) &&
        Starts(jobs) == Starts(Take(SortLatest(reached), limit))
  {
    var playbookJobs := ControllerJobPage(playbooks, wanted, limit, playbookBatches, order);
    var workflowJobs: seq<Job> := [];
    if workflowBatches.Some? {
      workflowJobs := ControllerJobPage(workflows, wanted, limit, workflowBatches.value, order);
    }
    ghost var page := workflowJobs;
    workflowJobs := AsWorkflows(workflowJobs);
    var merged := MergeInto([], playbookJobs + workflowJobs, MergeKey);
    jobs := Take(SortLatest(merged), limit);
    MergedPageUnique(playbookJobs + workflowJobs, MergeKey, limit);
    ghost var asked := if workflowBatches.Some? then Asked(workflows, wanted) else [];
    ghost var reached := Asked(playbooks, wanted) + AsWorkflows(asked);
    if UniqueKeys(playbooks, IdOf) && UniqueKeys(workflows, IdOf) && UniqueKeys(reached, MergeKey) &&
       (wanted.StatusIn? ==> Distinct(wanted.statuses)) &&
       PagesAlike(playbooks, wanted, limit, order) &&
       (workflowBatches.Some? ==> PagesAlike(workflows, wanted, limit, order)) {
      AsWorkflowsCover(page, asked, limit);
      CoversConcat(playbookJobs, Asked(playbooks, wanted), workflowJobs, AsWorkflows(asked), limit);
      MergedPageCovers(playbookJobs + workflowJobs, reached, MergeKey, limit);
    }
  }

  /** A list without a status, of one job: where the service puts unstarted jobs first, a waiting job
      crowds out any job that has started. */
  lemma WaitingJobCrowdsOut(waiting: Job, started: Job)
    requires waiting.started == "" && started.started != "" && waiting.id != ""
    ensures Answers([[waiting]], [waiting, started], AnyStatus, 1, UnstartedFirst)
    ensures MergedPage([waiting], MergeKey, 1) == [waiting] && Take(SortLatest([waiting, started]), 1) == [started]
  {
    OnlyWaiting(waiting, started);
    MergeOne(waiting);
    SortTwo(waiting, started);
    assert [started, waiting][..1] == [started];
  }

  lemma OnlyWaiting(waiting: Job, started: Job)
    requires waiting.started == ""
    ensures IsPage([waiting], [waiting, started], 1, UnstartedFirst)
  {
    assert [waiting, started] == [waiting] + [started];
    forall x, y | x in multiset([waiting, started]) - multiset([waiting]) && y in [waiting]
      ensures Behind(x, y, UnstartedFirst)
    {
    }
  }

  lemma MergeOne(job: Job)
    requires job.id != ""
    ensures MergedPage([job], MergeKey, 1) == [job]
  {
    assert [job][1..] == [];
    assert PutAll([], [job], MergeKey) == PutAll([job], [], MergeKey) == [job];
    assert SortLatest([job]) == Place(job, SortLatest([])) == [job];
  }

  lemma SortTwo(a: Job, b: Job)
    requires !StringLe(b.started, a.started)
    ensures SortLatest([a, b]) == [b, a]
  {
    assert [a, b][1..] == [b] && [b][1..] == [];
    assert SortLatest([b]) == Place(b, SortLatest([])) == [b];
    assert Place(a, [b]) == [b] + Place(a, []);
  }

  /** Two records share a place in the merged list exactly when they have the same id and the same type,
      a missing type counting as "job". */
  lemma MergeKeyByTypeAndId(a: Job, b: Job)
    requires (a.kind.Some? ==> ':' !in a.kind.value) && (b.kind.Some? ==> ':' !in b.kind.value)
    ensures MergeKey(a) == MergeKey(b) <==>
      a.id == b.id && (if a.kind in {None, Some("")} then "job" else a.kind.value) ==
                      (if b.kind in {None, Some("")} then "job" else b.kind.value)
  {
    var s := if a.kind in {None, Some("")} then "job" else a.kind.value;
    var t := if b.kind in {None, Some("")} then "job" else b.kind.value;
    ColonSplits(s, a.id, t, b.id);
  }

  lemma ColonSplits(s: string, a: string, t: string, b: string)
    requires ':' !in s && ':' !in t
    ensures s + ":" + a == t + ":" + b <==> s == t && a == b
  {
    var x, y := s + ":" + a, t + ":" + b;
    if x == y {
      assert x[|s|] == ':' && y[|t|] == ':';
      assert forall i :: 0 <= i < |s| ==> x[i] == s[i] && s[i] in s;
      assert forall i :: 0 <= i < |t| ==> y[i] == t[i] && t[i] in t;
      assert |s| == |t|;
      assert s == x[..|s|] && t == y[..|t|] && a == x[|s| + 1..] && b == y[|t| + 1..];
    }
  }

  /** A workflow record without a type is listed as a workflow job; nothing else about it changes. */
  lemma WorkflowsAreTyped(job: Job)
    ensures AsWorkflow(job).kind == Some(if job.kind.Some? then job.kind.value else "workflow_job")
    ensures AsWorkflow(job).id == job.id && AsWorkflow(job).status == job.status &&
      AsWorkflow(job).started == job.started
  {
  }

  /** The jobs a call asks for are all those with a wanted status, each as often as the service holds it. */
  lemma {:induction false} AskedByStatus(all: seq<Job>, wanted: Wanted, x: Job)
    ensures multiset(Asked(all, wanted))[x] ==
      if wanted.AnyStatus? || (wanted.OneStatus? && (wanted.status == "" || x.status == wanted.status)) ||
         (wanted.StatusIn? && x.status in wanted.statuses)
      then multiset(all)[x] else 0
  {
    if all != [] {
      assert all == [all[0]] + all[1..];
      AskedByStatus(all[1..], wanted, x);
    }
  }

  // ----- list_orchestrator_executions -----

  const StatusMap: map<string, string> :=
    map["completed" := "successful", "completed_with_errors" := "failed", "cancelled" := "canceled",
        "canceled" := "canceled", "paused" := "waiting"]

  /** str.strip().lower() */
  function Plain(s: string): string
  {
    MapChars(AsciiLower, Trim(s, PythonSpace))
  }

  function NormalizeStatus(status: string): string
  {
    var raw := if Plain(status) == "" then "unknown" else Plain(status);
    if raw in StatusMap then StatusMap[raw] else raw
  }

  /** The asked text is the status or its normal form. */
  predicate Names(asked: string, status: string)
  {
    Plain(asked) == NormalizeStatus(status) || Plain(asked) == Plain(status)
  }

  /** _orchestrator_execution_matches */
  predicate ExecutionMatches(status: string, wanted: Wanted)
  {
    match wanted
    case AnyStatus => true
    case OneStatus(expected) => Names(expected, status)
    case StatusIn(statuses) => exists item :: item in statuses && item != "" && Names(item, status)
  }

  /** The question the loop asks of each record. */
  function Keeps(wanted: Wanted): Job -> bool
  {
    (job: Job) => ExecutionMatches(job.status, wanted)
  }

  function Filter(records: seq<Job>, keep: Job -> bool): seq<Job>
  {
    if records == [] then [] else (if keep(records[0]) then [records[0]] else []) + Filter(records[1..], keep)
  }

  function Matching(records: seq<Job>, wanted: Wanted): seq<Job>
  {
    Filter(records, Keeps(wanted))
  }

  lemma {:induction false} FilterConcat(a: seq<Job>, b: seq<Job>, keep: Job -> bool)
    ensures Filter(a + b, keep) == Filter(a, keep) + Filter(b, keep)
  {
    if a == [] {
      assert a + b == b;
    } else {
      var first := if keep(a[0]) then [a[0]] else [];
      assert (a + b)[0] == a[0] && (a + b)[1..] == a[1..] + b;
      FilterConcat(a[1..], b, keep);
      assert first + (Filter(a[1..], keep) + Filter(b, keep)) == (first + Filter(a[1..], keep)) + Filter(b, keep);
    }
  }

  /** The window the code reads of all executions, latest first. */
  function Window(all: seq<Job>, wanted: Wanted, limit: nat): seq<Job>
  {
    Take(all, if wanted.AnyStatus? then limit else Max(limit * 3, 40))
  }

  /** all: what the service holds, in the order of the request. The limit is checked after an append,
      so a limit of zero still returns a match in the first place. */
  method ListOrchestratorExecutions(all: seq<Job>, wanted: Wanted, limit: nat) returns (matched: seq<Job>)
    ensures limit >= 1 ==> matched == Take(Matching(Window(all, wanted, limit), wanted), limit)
    ensures limit == 0 ==> matched == Matching(Take(Window(all, wanted, limit), 1), wanted)
  {
    var records := Take(all, if wanted.AnyStatus? then limit else Max(limit * 3, 40));
    matched := [];
    for i := 0 to |records|
      invariant matched == Matching(records[..i], wanted) && (|matched| < limit || i == 0)
    {
      FilterNext(records, i, Keeps(wanted));
      FilterSplit(records, i + 1, Keeps(wanted));
      if ExecutionMatches(records[i].status, wanted) {
        matched := matched + [records[i]];
      }
      if |matched| >= limit {
        TakeFront(matched, Matching(records[i + 1..], wanted), limit);
        break;
      }
    }
    assert records[..|records|] == records;
  }

  lemma TakeFront(front: seq<Job>, back: seq<Job>, limit: nat)
    ensures |front| == limit ==> Take(front + back, limit) == front
  {
  }

  lemma FilterNext(records: seq<Job>, i: nat, keep: Job -> bool)
    requires i < |records|
    ensures Filter(records[..i + 1], keep) ==
      Filter(records[..i], keep) + (if keep(records[i]) then [records[i]] else [])
  {
    assert records[..i + 1] == records[..i] + [records[i]];
    FilterOneMore(records[..i], records[i], keep);
  }

  lemma FilterJoin(records: seq<Job>, front: seq<Job>, back: seq<Job>, keep: Job -> bool)
    requires records == front + back
    ensures Filter(records, keep) == Filter(front, keep) + Filter(back, keep)
  {
    FilterConcat(front, back, keep);
  }

  lemma FilterSplit(records: seq<Job>, i: nat, keep: Job -> bool)
    requires i <= |records|
    ensures Filter(records, keep) == Filter(records[..i], keep) + Filter(records[i..], keep)
  {
    FilterJoin(records, records[..i], records[i..], keep);
  }

  lemma FilterOneMore(records: seq<Job>, last: Job, keep: Job -> bool)
    ensures Filter(records + [last], keep) == Filter(records, keep) + (if keep(last) then [last] else [])
  {
    FilterConcat(records, [last], keep);
    assert [last][1..] == [];
  }

  /** The list is the true top of all executions. */
  ghost predicate ExactList(all: seq<Job>, wanted: Wanted, limit: nat)
  {
    Take(Matching(Window(all, wanted, limit), wanted), limit) == Take(Matching(all, wanted), limit)
  }

  /** The list is exact unless the window holds too few matches and something beyond it matches; a list
      of full length always is. */
  lemma WindowIsExact(all: seq<Job>, wanted: Wanted, limit: nat)
    ensures var seen := Window(all, wanted, limit);
      ExactList(all, wanted, limit) <==> |Matching(seen, wanted)| >= limit || Matching(all[|seen|..], wanted) == []
    ensures |Take(Matching(Window(all, wanted, limit), wanted), limit)| == limit ==> ExactList(all, wanted, limit)
  {
    var seen := Window(all, wanted, limit);
    assert all == seen + all[|seen|..];
    FilterConcat(seen, all[|seen|..], Keeps(wanted));
    var front, back := Matching(seen, wanted), Matching(all[|seen|..], wanted);
    if |front| >= limit {
      assert (front + back)[..limit] == front[..limit];
    } else if back == [] {
      assert front + back == front;
    } else {
      assert |Take(front, limit)| == |front| < |Take(front + back, limit)|;
    }
  }

  lemma {:induction false} AllMatch(records: seq<Job>)
    ensures Matching(records, AnyStatus) == records
  {
    if records != [] { AllMatch(records[1..]); }
  }

  /** Without a filter the list is always the true top. */
  lemma UnfilteredIsExact(all: seq<Job>, limit: nat)
    ensures ExactList(all, AnyStatus, limit) && Take(Matching(all, AnyStatus), limit) == Take(all, limit)
  {
    AllMatch(all);
    AllMatch(Window(all, AnyStatus, limit));
  }

  /** The filter asks for some status. */
  predicate Asks(wanted: Wanted)
  {
    match wanted
    case AnyStatus => true
    case OneStatus(_) => true
    case StatusIn(statuses) => exists item :: item in statuses && item != ""
  }

  lemma {:induction false} NoMatch(records: seq<Job>, wanted: Wanted)
    requires forall x :: x in records ==> !ExecutionMatches(x.status, wanted)
    ensures Matching(records, wanted) == []
  {
    if records != [] { NoMatch(records[1..], wanted); }
  }

  lemma {:induction false} SomeMatch(records: seq<Job>, wanted: Wanted)
    requires records != [] && ExecutionMatches(records[0].status, wanted)
    ensures Matching(records, wanted) != []
  {
  }

  /** A filter that asks for nothing gets the true, empty list. */
  lemma NothingAsked(all: seq<Job>, wanted: Wanted, limit: nat)
    requires !Asks(wanted)
    ensures ExactList(all, wanted, limit) && Matching(all, wanted) == []
  {
    NoMatch(all, wanted);
    NoMatch(Window(all, wanted, limit), wanted);
  }

  lemma {:induction false} TrimShortens(s: string, space: char -> bool)
    ensures |Trim(s, space)| <= |s|
    decreases |s|
  {
    if s != [] && space(s[0]) {
      TrimShortens(s[1..], space);
    } else if s != [] && space(s[|s| - 1]) {
      TrimShortens(s[..|s| - 1], space);
    }
  }

  function Exes(n: nat): string { seq(n, _ => 'x') }

  lemma PlainExes(n: nat)
    requires n > 0
    ensures Plain(Exes(n)) == Exes(n) && NormalizeStatus(Exes(n)) == Exes(n)
  {
    assert Trimmed(Exes(n), PythonSpace);
    assert MapChars(AsciiLower, Exes(n)) == Exes(n);
    assert forall key :: key in StatusMap ==> key[0] != 'x';
    assert Exes(n)[0] == 'x';
  }

  function Longest(items: seq<string>): (n: nat)
    ensures forall item :: item in items ==> |item| <= n
  {
    if items == [] then 0 else Max(|items[0]|, Longest(items[1..]))
  }

  lemma NotNamed(item: string, n: nat)
    requires n > |item|
    ensures !Names(item, Exes(n))
  {
    PlainExes(n);
    TrimShortens(item, PythonSpace);
  }

  /** A status the filter finds and one it does not. */
  lemma HitAndMiss(wanted: Wanted) returns (hit: string, miss: string)
    requires !wanted.AnyStatus? && Asks(wanted)
    ensures ExecutionMatches(hit, wanted) && !ExecutionMatches(miss, wanted)
  {
    match wanted
    case OneStatus(expected) =>
      hit, miss := expected, Exes(|expected| + 1);
      NotNamed(expected, |expected| + 1);
    case StatusIn(statuses) =>
      hit :| hit in statuses && hit != "";
      miss := Exes(Longest(statuses) + 1);
      forall item | item in statuses ensures !Names(item, miss) {
        NotNamed(item, Longest(statuses) + 1);
      }
  }

  /** The same executions with other statuses. */
  function Restated(all: seq<Job>, statuses: seq<string>): (r: seq<Job>)
    requires |statuses| == |all|
    ensures |r| == |all| && forall i :: 0 <= i < |all| ==> r[i] == all[i].(status := statuses[i])
  {
    seq(|all|, i requires 0 <= i < |all| => all[i].(status := statuses[i]))
  }

  /** Main result: a filtered list of these executions is exact whatever their statuses are if and only
      if there are no more of them than the window holds. */
  lemma ExactForEveryStatus(all: seq<Job>, wanted: Wanted, limit: nat)
    requires !wanted.AnyStatus? && Asks(wanted) && limit >= 1
    ensures (forall statuses :: |statuses| == |all| ==> ExactList(Restated(all, statuses), wanted, limit)) <==>
      |all| <= Max(limit * 3, 40)
  {
    var size := Max(limit * 3, 40);
    if |all| > size {
      var hit, miss := HitAndMiss(wanted);
      var statuses := seq(|all|, i => if i < size then miss else hit);
      MissedBeyond(Restated(all, statuses), wanted, limit);
      assert !ExactList(Restated(all, statuses), wanted, limit);
    }
  }

  /** No match in the window and one right behind it: the list misses it. */
  lemma MissedBeyond(all: seq<Job>, wanted: Wanted, limit: nat)
    requires !wanted.AnyStatus? && limit >= 1 && |all| > Max(limit * 3, 40)
    requires forall i :: 0 <= i < Max(limit * 3, 40) ==> !ExecutionMatches(all[i].status, wanted)
    requires ExecutionMatches(all[Max(limit * 3, 40)].status, wanted)
    ensures Matching(Window(all, wanted, limit), wanted) == [] && !ExactList(all, wanted, limit)
  {
    var size := Max(limit * 3, 40);
    NoMatch(all[..size], wanted);
    SomeMatch(all[size..], wanted);
    WindowIsExact(all, wanted, limit);
  }

  const FortyRunningOneFailed: seq<Job> :=
    seq(41, i requires 0 <= i < 41 => Job(None, Exes(i + 1), if i < 40 then "running" else "failed", ""))

  /** Such a list: forty running executions in front of a failed one, asked for one failed execution. */
  lemma FailedExecutionIsMissed()
    ensures Matching(Window(FortyRunningOneFailed, OneStatus("failed"), 1), OneStatus("failed")) == []
    ensures !ExactList(FortyRunningOneFailed, OneStatus("failed"), 1)
  {
    PlainWord("failed");
    PlainWord("running");
    assert "running"[0] == 'r' && "failed"[0] == 'f';
    assert !ExecutionMatches("running", OneStatus("failed")) && ExecutionMatches("failed", OneStatus("failed"));
    MissedBeyond(FortyRunningOneFailed, OneStatus("failed"), 1);
  }

  lemma PlainWord(s: string)
    requires s != "" && forall c :: c in s ==> 'a' <= c <= 'z'
    ensures Plain(s) == s
  {
    assert s[0] in s && s[|s| - 1] in s;
    assert Trimmed(s, PythonSpace);
    forall i | 0 <= i < |s| ensures AsciiLower(s[i]) == s[i] {
      assert s[i] in s;
    }
    assert MapChars(AsciiLower, s) == s;
  }

  /** The normal form of each status, once trimmed and in lower case. */
  lemma NormalForms(status: string)
    ensures var plain := Plain(status);
      NormalizeStatus(status) ==
        if plain == "completed" then "successful"
        else if plain == "completed_with_errors" then "failed"
        else if plain == "cancelled" then "canceled"
        else if plain == "paused" then "waiting"
        else if plain == "" then "unknown"
        else plain
  {
  }

  /** Either word finds an execution, in any case and with outer spaces. */
  lemma EitherWordMatches(status: string, asked: string)
    requires Plain(status) == "completed"
    ensures ExecutionMatches(status, OneStatus(asked)) <==> Plain(asked) in {"completed", "successful"}
    ensures asked != "" ==>
      (ExecutionMatches(status, StatusIn([asked])) <==> Plain(asked) in {"completed", "successful"})
  {
    NormalForms(status);
    assert asked in [asked];
  }

  /** Statuses are compared without outer spaces and case. */
  lemma PlainTrimsAndLowers()
    ensures Plain(" Failed ") == "failed"
  {
    assert " Failed "[1..] == "Failed " && "Failed "[..6] == "Failed" && Trimmed("Failed", PythonSpace);
    assert MapChars(AsciiLower, "Failed") == "failed";
  }
}
