/** The read-only results service: `GET /jobs` (the filtered, newest-first job list),
    `GET /jobs/{job_id}`, `GET /jobs/{job_id}/results` and `GET /stats`, all computed
    from the bucket's job records. */
module ResultsApi {
  import opened Wrappers
  import opened JsonDoc
  import opened Text
  import opened Bucket
  import opened Http

  /** One entry of the job list (the `JobSummary` model). */
  datatype JobSummary = JobSummary(jobId: string, busNumber: string, latlong: string,
                                   timestamp: string, totalImages: int, status: string,
                                   matchesFound: Option<int>, alert: Option<bool>)

  /** The body of `GET /jobs`: `total` and `jobs`. */
  datatype JobPage = JobPage(total: nat, jobs: seq<JobSummary>)

  /** The query parameters of `GET /jobs`. */
  datatype Query = Query(status: Option<string>, alertOnly: bool, limit: int)

  const DefaultQuery: Query := Query(None, false, 50)

  // ---- typed fields (the models' field types) ----

  predicate HasStr(f: map<string, Json>, key: string) {
    key in f && f[key].Str?
  }

  predicate HasInt(f: map<string, Json>, key: string) {
    key in f && f[key].Int?
  }

  /** The five required fields a record must hold, with their types. */
  predicate RequiredFields(f: map<string, Json>) {
    HasStr(f, "bus_number") && HasStr(f, "latlong") && HasStr(f, "timestamp") &&
    HasInt(f, "total_images") && HasStr(f, "status")
  }

  /** The status filter is on: `if status and ...`. */
  predicate FilterOn(status: Option<string>) {
    status.Some? && status.value != ""
  }

  /** `metadata.get('results', {})`. */
  function ResultsOf(f: map<string, Json>): Json {
    GetOr(f, "results", Empty)
  }

  /** The alert filter passes: `results.get('alert')` is truthy (it raises, and the record
      is skipped, when `results` is not a dict). */
  predicate AlertRaised(f: map<string, Json>) {
    var results := ResultsOf(f);
    results.Obj? && Truthy(Get(results.fields, "alert"))
  }

  // ---- list_jobs ----

  /** The summary `list_jobs` builds for the record `m` of `jobId`, or None when the record
      is filtered out or building the summary raises (and the record is skipped). */
  function Summarize(jobId: string, m: Json, status: Option<string>, alertOnly: bool): Option<JobSummary> {
    if !m.Obj? then None
    else
      var f := m.fields;
      var results := ResultsOf(f);
      if FilterOn(status) && Get(f, "status") != Str(status.value) then None
      else if alertOnly && !AlertRaised(f) then None
      else if Truthy(results) && !results.Obj? then None
      else
        var found := if Truthy(results) then Get(results.fields, "matches_found") else Null;
        var alert := if Truthy(results) then Get(results.fields, "alert") else Null;
        if !RequiredFields(f) || !(found.Null? || found.Int?) || !(alert.Null? || alert.Bool?) then None
        else
          Some(JobSummary(jobId, f["bus_number"].s, f["latlong"].s, f["timestamp"].s,
                          f["total_images"].i, f["status"].s,
                          if found.Int? then Some(found.i) else None,
                          if alert.Bool? then Some(alert.b) else None))
  }

  /** What `list_jobs` makes of one listing entry. */
  function SummaryOf(st: Store, e: Entry, status: Option<string>, alertOnly: bool): Option<JobSummary> {
    if !e.isDir then None
    else
      var jobId := FolderId(e.name);
      match ReadJson(st, MetadataKey(jobId))
      case Failed(_) => None
      case Found(m) => Summarize(jobId, m, status, alertOnly)
  }

  /** The summaries collected from `entries`, in listing order. */
  function Summaries(st: Store, entries: seq<Entry>, status: Option<string>, alertOnly: bool): seq<JobSummary>
    decreases |entries|
  {
    if entries == [] then []
    else
      Summaries(st, entries[..|entries| - 1], status, alertOnly) +
      match SummaryOf(st, entries[|entries| - 1], status, alertOnly)
      case Some(j) => [j]
      case None => []
  }

  /** No job of `s` is newer than the one before it. */
  predicate NewestFirstOrder(s: seq<JobSummary>) {
    forall i, j :: 0 <= i < j < |s| ==> !LexLess(s[i].timestamp, s[j].timestamp)
  }

  /** Place `x` after every job of `s` at least as new as it. */
  function Insert(s: seq<JobSummary>, x: JobSummary): seq<JobSummary>
    decreases |s|
  {
    if s == [] then [x]
    else if LexLess(s[0].timestamp, x.timestamp) then [x] + s
    else [s[0]] + Insert(s[1..], x)
  }

  /** `jobs.sort(key=lambda x: x.timestamp, reverse=True)`: a stable sort on the
      timestamp strings, newest first. */
  function NewestFirst(s: seq<JobSummary>): seq<JobSummary>
    decreases |s|
  {
    if s == [] then [] else Insert(NewestFirst(s[..|s| - 1]), s[|s| - 1])
  }

  /** How many items Python's `s[:limit]` keeps of `n`. */
  function SliceLength(n: nat, limit: int): (k: nat)
    ensures k <= n
  {
    if limit >= 0 then (if limit < n then limit else n)
    else if n + limit > 0 then n + limit else 0
  }

  /** `s[:limit]`, negative `limit` included. */
  function Head<T>(s: seq<T>, limit: int): seq<T> {
    s[..SliceLength(|s|, limit)]
  }

  /** `GET /jobs`: a listing that raises answers 500. */
  function ListJobsReply(st: Store, l: Listing, q: Query): Reply<JobPage> {
    if l.fails then ServerError()
    else
      var jobs := Head(NewestFirst(Summaries(st, l.entries, q.status, q.alertOnly)), q.limit);
      Ok(JobPage(|jobs|, jobs))
  }

  /** `list_jobs(status, alert_only, limit)`. */
  method ListJobs(client: Client, l: Listing, q: Query) returns (r: Reply<JobPage>)
    ensures r == ListJobsReply(client.store, l, q)
  {
    var jobs := [];
    var i := 0;
    while i < |l.entries|
      invariant 0 <= i <= |l.entries|
      invariant jobs == Summaries(client.store, l.entries[..i], q.status, q.alertOnly)
    {
      var e := l.entries[i];
      assert l.entries[..i + 1][..i] == l.entries[..i];
      if e.isDir {
        var jobId := FolderId(e.name);
        var m := client.GetJson(MetadataKey(jobId));
        if m.Found? {
          var summary := Summarize(jobId, m.value, q.status, q.alertOnly);
          if summary.Some? {
            jobs := jobs + [summary.value];
          }
        }
      }
      i := i + 1;
    }
    assert l.entries[..i] == l.entries;
    if l.fails {
      return ServerError();
    }
    jobs := NewestFirst(jobs);
    jobs := Head(jobs, q.limit);
    r := Ok(JobPage(|jobs|, jobs));
  }

  // ---- what list_jobs promises ----

  /** The status filter removes exactly the summaries of another status: filtering on a
      status gives the unfiltered summary when its status is that one, and nothing
      otherwise. */
  lemma StatusFilterExact(jobId: string, m: Json, status: Option<string>, alertOnly: bool)
    ensures var all := Summarize(jobId, m, None, alertOnly);
      Summarize(jobId, m, status, alertOnly) ==
        if all.Some? && (!FilterOn(status) || all.value.status == status.value) then all else None
  {
  }

  /** The alert filter keeps exactly the summaries whose alert is true. */
  lemma AlertFilterExact(jobId: string, m: Json, status: Option<string>)
    ensures var all := Summarize(jobId, m, status, false);
      Summarize(jobId, m, status, true) ==
        if all.Some? && all.value.alert == Some(true) then all else None
  {
  }

  /** A summary carries the job id it was built for and the record's own fields; with no
      results yet, it has neither a match count nor an alert. */
  lemma SummaryFields(jobId: string, m: Json, status: Option<string>, alertOnly: bool)
    requires Summarize(jobId, m, status, alertOnly).Some?
    ensures var j := Summarize(jobId, m, status, alertOnly).value;
      m.Obj? && RequiredFields(m.fields) && j.jobId == jobId &&
      Str(j.status) == m.fields["status"] && Str(j.timestamp) == m.fields["timestamp"] &&
      Str(j.busNumber) == m.fields["bus_number"] && Int(j.totalImages) == m.fields["total_images"] &&
      (!Truthy(ResultsOf(m.fields)) ==> j.matchesFound.None? && j.alert.None?)
  {
  }

  /** A dict record with its five fields and no results is listed when no filter is on. */
  lemma FreshRecordListed(jobId: string, m: Json)
    requires m.Obj? && RequiredFields(m.fields) && "results" !in m.fields
    ensures Summarize(jobId, m, None, false).Some?
  {
  }

  lemma {:induction false} SummariesConcat(st: Store, a: seq<Entry>, b: seq<Entry>,
                                           status: Option<string>, alertOnly: bool)
    decreases |b|
    ensures Summaries(st, a + b, status, alertOnly) ==
            Summaries(st, a, status, alertOnly) + Summaries(st, b, status, alertOnly)
  {
    if b == [] {
      assert a + b == a;
    } else {
      var b' := b[..|b| - 1];
      assert (a + b)[..|a + b| - 1] == a + b';
      assert (a + b)[|a + b| - 1] == b[|b| - 1];
      SummariesConcat(st, a, b', status, alertOnly);
    }
  }

  /** A summary is collected exactly when some listing entry yields it. */
  lemma {:induction false} SummariesMembers(st: Store, es: seq<Entry>, status: Option<string>,
                                            alertOnly: bool, j: JobSummary)
    decreases |es|
    ensures j in Summaries(st, es, status, alertOnly) <==>
            exists e :: e in es && SummaryOf(st, e, status, alertOnly) == Some(j)
  {
    if es != [] {
      var es', last := es[..|es| - 1], es[|es| - 1];
      assert es == es' + [last];
      SummariesMembers(st, es', status, alertOnly, j);
      if SummaryOf(st, last, status, alertOnly) == Some(j) {
        assert last in es;
      }
      if exists e :: e in es && SummaryOf(st, e, status, alertOnly) == Some(j) {
        var e :| e in es && SummaryOf(st, e, status, alertOnly) == Some(j);
        if e != last {
          assert e in es';
        }
      }
    }
  }

  /** Inserting keeps every job and adds `x` once. */
  lemma {:induction false} InsertPermutes(s: seq<JobSummary>, x: JobSummary)
    decreases |s|
    ensures multiset(Insert(s, x)) == multiset(s) + multiset{x}
  {
    if s != [] && !LexLess(s[0].timestamp, x.timestamp) {
      InsertPermutes(s[1..], x);
      assert s == [s[0]] + s[1..];
    }
  }

  /** A job no newer than any job of a newest-first list may go in front of it. */
  lemma PrependOrdered(h: JobSummary, t: seq<JobSummary>)
    requires NewestFirstOrder(t)
    requires forall i :: 0 <= i < |t| ==> !LexLess(h.timestamp, t[i].timestamp)
    ensures NewestFirstOrder([h] + t)
  {
    var r := [h] + t;
    forall i, j | 0 <= i < j < |r| ensures !LexLess(r[i].timestamp, r[j].timestamp) {
      assert r[j] == t[j - 1];
      if i > 0 {
        assert r[i] == t[i - 1];
      }
    }
  }

  /** Inserting into a newest-first list keeps it newest first. */
  lemma {:induction false} InsertOrdered(s: seq<JobSummary>, x: JobSummary)
    requires NewestFirstOrder(s)
    decreases |s|
    ensures NewestFirstOrder(Insert(s, x))
  {
    if s == [] {
    } else if LexLess(s[0].timestamp, x.timestamp) {
      forall i | 0 <= i < |s| ensures !LexLess(x.timestamp, s[i].timestamp) {
        if i == 0 {
          LexLessAsymmetric(s[0].timestamp, x.timestamp);
        } else if LexLess(x.timestamp, s[i].timestamp) {
          LexLessTransitive(s[0].timestamp, x.timestamp, s[i].timestamp);
        }
      }
      PrependOrdered(x, s);
    } else {
      var tail := s[1..];
      forall i, j | 0 <= i < j < |tail| ensures !LexLess(tail[i].timestamp, tail[j].timestamp) {
        assert tail[i] == s[i + 1] && tail[j] == s[j + 1];
      }
      var rest := Insert(tail, x);
      InsertOrdered(tail, x);
      InsertPermutes(tail, x);
      forall i | 0 <= i < |rest| ensures !LexLess(s[0].timestamp, rest[i].timestamp) {
        var y := rest[i];
        assert y in multiset(rest);
        if y != x {
          assert y in multiset(tail);
          var k :| 0 <= k < |tail| && tail[k] == y;
          assert s[k + 1] == y;
        }
      }
      PrependOrdered(s[0], rest);
    }
  }

  /** A job no newer than every job of `s` goes last. */
  lemma {:induction false} InsertLast(s: seq<JobSummary>, x: JobSummary)
    requires forall i :: 0 <= i < |s| ==> !LexLess(s[i].timestamp, x.timestamp)
    decreases |s|
    ensures Insert(s, x) == s + [x]
  {
    if s != [] {
      InsertLast(s[1..], x);
      assert s == [s[0]] + s[1..];
    }
  }

  /** The sort returns the same jobs. */
  lemma {:induction false} NewestFirstPermutes(s: seq<JobSummary>)
    decreases |s|
    ensures multiset(NewestFirst(s)) == multiset(s)
  {
    if s != [] {
      var init, last := s[..|s| - 1], s[|s| - 1];
      NewestFirstPermutes(init);
      InsertPermutes(NewestFirst(init), last);
      assert s == init + [last];
    }
  }

  /** The sort returns its jobs newest first. */
  lemma {:induction false} NewestFirstOrdered(s: seq<JobSummary>)
    decreases |s|
    ensures NewestFirstOrder(NewestFirst(s))
  {
    if s != [] {
      var init := s[..|s| - 1];
      NewestFirstOrdered(init);
      InsertOrdered(NewestFirst(init), s[|s| - 1]);
    }
  }

  /** The sort returns the same jobs, newest first. */
  lemma NewestFirstSorts(s: seq<JobSummary>)
    ensures NewestFirstOrder(NewestFirst(s)) && multiset(NewestFirst(s)) == multiset(s)
  {
    NewestFirstPermutes(s);
    NewestFirstOrdered(s);
  }

  /** The jobs of `s` stamped `t`, in the order of `s`. */
  function Tied(s: seq<JobSummary>, t: string): seq<JobSummary>
    decreases |s|
  {
    if s == [] then [] else (if s[0].timestamp == t then [s[0]] else []) + Tied(s[1..], t)
  }

  lemma {:induction false} TiedConcat(a: seq<JobSummary>, b: seq<JobSummary>, t: string)
    decreases |a|
    ensures Tied(a + b, t) == Tied(a, t) + Tied(b, t)
  {
    if a != [] {
      TiedConcat(a[1..], b, t);
      assert (a + b)[0] == a[0] && (a + b)[1..] == a[1..] + b;
      var h := if a[0].timestamp == t then [a[0]] else [];
      assert Tied(a + b, t) == h + (Tied(a[1..], t) + Tied(b, t));
      assert h + (Tied(a[1..], t) + Tied(b, t)) == (h + Tied(a[1..], t)) + Tied(b, t);
    } else {
      assert a + b == b;
    }
  }

  /** No job of a list that is older throughout than `t` is stamped `t`. */
  lemma {:induction false} TiedNone(s: seq<JobSummary>, t: string)
    requires forall i :: 0 <= i < |s| ==> LexLess(s[i].timestamp, t)
    decreases |s|
    ensures Tied(s, t) == []
  {
    if s != [] {
      LexLessIrreflexive(t);
      TiedNone(s[1..], t);
    }
  }

  /** Inserting into a newest-first list puts the new job after every job with its
      timestamp, and leaves the other timestamps' jobs in their order. */
  lemma {:induction false} InsertTied(s: seq<JobSummary>, x: JobSummary, t: string)
    requires NewestFirstOrder(s)
    decreases |s|
    ensures Tied(Insert(s, x), t) == Tied(s, t) + (if x.timestamp == t then [x] else [])
  {
    if s == [] {
    } else if LexLess(s[0].timestamp, x.timestamp) {
      if x.timestamp == t {
        forall i | 0 <= i < |s| ensures LexLess(s[i].timestamp, t) {
          if i > 0 {
            LexLessTotal(s[i].timestamp, t);
            if LexLess(t, s[i].timestamp) {
              LexLessTransitive(s[0].timestamp, t, s[i].timestamp);
            }
          }
        }
        TiedNone(s, t);
      }
      assert ([x] + s)[1..] == s;
    } else {
      assert NewestFirstOrder(s[1..]);
      InsertTied(s[1..], x, t);
      assert ([s[0]] + Insert(s[1..], x))[1..] == Insert(s[1..], x);
    }
  }

  /** The sort is stable: for every timestamp, the jobs carrying it come out in the
      order they were listed. */
  lemma {:induction false} NewestFirstKeepsTies(s: seq<JobSummary>, t: string)
    decreases |s|
    ensures Tied(NewestFirst(s), t) == Tied(s, t)
  {
    if s != [] {
      var init, x := s[..|s| - 1], s[|s| - 1];
      NewestFirstKeepsTies(init, t);
      NewestFirstOrdered(init);
      InsertTied(NewestFirst(init), x, t);
      TiedConcat(init, [x], t);
      assert s == init + [x];
    }
  }

  /** The sort is stable: jobs already newest first, ties included, stay where they are. */
  lemma {:induction false} NewestFirstStable(s: seq<JobSummary>)
    requires NewestFirstOrder(s)
    decreases |s|
    ensures NewestFirst(s) == s
  {
    if s != [] {
      var init := s[..|s| - 1];
      NewestFirstStable(init);
      InsertLast(init, s[|s| - 1]);
      assert s == init + [s[|s| - 1]];
    }
  }

  /** The first `n` jobs of a newest-first list are newest first, they are among the
      list's jobs, and no job after them is newer than any of them. */
  lemma OrderedPrefix(sorted: seq<JobSummary>, n: nat)
    requires NewestFirstOrder(sorted) && n <= |sorted|
    ensures NewestFirstOrder(sorted[..n])
    ensures multiset(sorted[..n]) <= multiset(sorted)
    ensures forall k, i :: k in multiset(sorted) - multiset(sorted[..n]) && 0 <= i < n ==>
              !LexLess(sorted[..n][i].timestamp, k.timestamp)
  {
    assert sorted == sorted[..n] + sorted[n..];
    assert multiset(sorted) - multiset(sorted[..n]) == multiset(sorted[n..]);
    forall k, i | k in multiset(sorted[n..]) && 0 <= i < n
      ensures !LexLess(sorted[..n][i].timestamp, k.timestamp)
    {
      var p :| 0 <= p < |sorted[n..]| && sorted[n..][p] == k;
      assert sorted[n + p] == k;
    }
  }

  /** The sort keeps the number of jobs. */
  lemma NewestFirstLength(all: seq<JobSummary>)
    ensures |NewestFirst(all)| == |all|
  {
    NewestFirstSorts(all);
    assert |multiset(NewestFirst(all))| == |multiset(all)|;
  }

  /** Cutting the sorted summaries to the limit: the page is newest first, holds jobs of
      `all` only, and every job left out is no newer than every job kept. */
  lemma SortedHead(all: seq<JobSummary>, limit: int)
    ensures var page := Head(NewestFirst(all), limit);
      |page| == SliceLength(|all|, limit) &&
      NewestFirstOrder(page) && multiset(page) <= multiset(all) &&
      forall k, i :: k in multiset(all) - multiset(page) && 0 <= i < |page| ==>
        !LexLess(page[i].timestamp, k.timestamp)
  {
    var sorted := NewestFirst(all);
    NewestFirstSorts(all);
    NewestFirstLength(all);
    var n := SliceLength(|all|, limit);
    assert Head(sorted, limit) == sorted[..n];
    OrderedPrefix(sorted, n);
  }

  /** Every collected summary passes both filters and comes from a folder of the listing. */
  lemma CollectedFromFolders(st: Store, es: seq<Entry>, status: Option<string>, alertOnly: bool,
                             j: JobSummary)
    requires j in Summaries(st, es, status, alertOnly)
    ensures (FilterOn(status) ==> j.status == status.value) &&
            (alertOnly ==> j.alert == Some(true)) &&
            exists e :: e in es && e.isDir && FolderId(e.name) == j.jobId &&
                        SummaryOf(st, e, status, alertOnly) == Some(j)
  {
    SummariesMembers(st, es, status, alertOnly, j);
    var e :| e in es && SummaryOf(st, e, status, alertOnly) == Some(j);
    var m := ReadJson(st, MetadataKey(FolderId(e.name))).value;
    SummaryFields(FolderId(e.name), m, status, alertOnly);
    StatusFilterExact(FolderId(e.name), m, status, alertOnly);
    AlertFilterExact(FolderId(e.name), m, status);
  }

  /** `GET /jobs`: a listing that raises answers 500; otherwise the page is the collected
      summaries newest first, cut as Python's `[:limit]` cuts (at most `limit` of them for
      a non-negative limit, all but the last `-limit` for a negative one), with `total` its
      length; every job left out is no newer than every job on the page, and every job on
      the page comes from a folder of the listing whose record passes both filters. */
  lemma ListJobsPage(st: Store, l: Listing, q: Query)
    ensures l.fails <==> ListJobsReply(st, l, q) == Error(500, None)
    ensures !l.fails ==>
      var all := Summaries(st, l.entries, q.status, q.alertOnly);
      var page := ListJobsReply(st, l, q).body;
      page.total == |page.jobs| == SliceLength(|all|, q.limit) &&
      (q.limit >= 0 ==> |page.jobs| <= q.limit) &&
      NewestFirstOrder(page.jobs) &&
      multiset(page.jobs) <= multiset(all) &&
      (forall k, i :: k in multiset(all) - multiset(page.jobs) && 0 <= i < |page.jobs| ==>
         !LexLess(page.jobs[i].timestamp, k.timestamp)) &&
      (forall j :: j in page.jobs ==>
         (FilterOn(q.status) ==> j.status == q.status.value) &&
         (q.alertOnly ==> j.alert == Some(true)) &&
         exists e :: e in l.entries && e.isDir && FolderId(e.name) == j.jobId &&
                     SummaryOf(st, e, q.status, q.alertOnly) == Some(j))
  {
    if !l.fails {
      var all := Summaries(st, l.entries, q.status, q.alertOnly);
      var page := Head(NewestFirst(all), q.limit);
      SortedHead(all, q.limit);
      forall j | j in page
        ensures (FilterOn(q.status) ==> j.status == q.status.value) &&
                (q.alertOnly ==> j.alert == Some(true)) &&
                exists e :: e in l.entries && e.isDir && FolderId(e.name) == j.jobId &&
                            SummaryOf(st, e, q.status, q.alertOnly) == Some(j)
      {
        assert j in multiset(page);
        assert j in multiset(all);
        CollectedFromFolders(st, l.entries, q.status, q.alertOnly, j);
      }
    }
  }

  // ---- get_job and get_results ----

  /** The job record as `GET /jobs/{job_id}` returns it (the `JobDetail` model). */
  datatype JobDetail = JobDetail(jobId: string, busNumber: string, latlong: string,
                                 timestamp: string, totalImages: int, status: string,
                                 results: Option<map<string, Json>>)

  /** The detail built from the record `m`, or None when building it raises: `m` is not a
      dict, lacks a required field, or holds a `results` that is neither null nor a dict. */
  function Detail(jobId: string, m: Json): Option<JobDetail> {
    if !m.Obj? || !RequiredFields(m.fields) then None
    else
      var f := m.fields;
      var results := Get(f, "results");
      if !(results.Null? || results.Obj?) then None
      else
        Some(JobDetail(jobId, f["bus_number"].s, f["latlong"].s, f["timestamp"].s,
                       f["total_images"].i, f["status"].s,
                       if results.Obj? then Some(results.fields) else None))
  }

  /** `GET /jobs/{job_id}`: 404 exactly when the record is missing, 500 on any other
      failure; a job returned carries the record's own fields. */
  function GetJobReply(st: Store, jobId: string): (r: Reply<JobDetail>)
    ensures r.Error? && r.code == 404 <==> ReadJson(st, MetadataKey(jobId)) == Failed(NoSuchKey)
    ensures r.Error? ==> r.code == 404 || r.code == 500
    ensures r.Ok? <==> (ReadJson(st, MetadataKey(jobId)).Found? &&
                       Detail(jobId, ReadJson(st, MetadataKey(jobId)).value).Some?)
    ensures r.Ok? ==> var f := ReadJson(st, MetadataKey(jobId)).value.fields;
              r.body.jobId == jobId && Str(r.body.status) == f["status"] &&
              Str(r.body.timestamp) == f["timestamp"] &&
              (r.body.results.None? <==> Get(f, "results") == Null)
  {
    match ReadJson(st, MetadataKey(jobId))
    case Failed(NoSuchKey) => Error(404, Some("Job '" + jobId + "' not found"))
    case Failed(_) => ServerError()
    case Found(m) =>
      match Detail(jobId, m)
      case Some(d) => Ok(d)
      case None => ServerError()
  }

  /** `GET /jobs/{job_id}/results`: exactly the stored results document; 404 exactly when
      it is missing, 500 on any other failure. */
  function GetResultsReply(st: Store, jobId: string): (r: Reply<Json>)
    ensures r.Ok? <==> ReadJson(st, ResultsKey(jobId)).Found?
    ensures r.Ok? ==> ReadJson(st, ResultsKey(jobId)).value == r.body
    ensures r.Error? && r.code == 404 <==> GetObject(st, ResultsKey(jobId)) == Failed(NoSuchKey)
    ensures r.Error? ==> r.code == 404 || r.code == 500
  {
    match ReadJson(st, ResultsKey(jobId))
    case Failed(NoSuchKey) => Error(404, Some("Results not found for job '" + jobId + "'"))
    case Failed(_) => ServerError()
    case Found(results) => Ok(results)
  }

  /** A record listed with no filter and with no results, or results that are a dict, is
      also returned by `get_job`, with the same fields. */
  lemma ListedJobHasDetail(st: Store, e: Entry)
    requires SummaryOf(st, e, None, false).Some?
    requires var m := ReadJson(st, MetadataKey(FolderId(e.name)));
             m.Found? && m.value.Obj? && (Get(m.value.fields, "results").Null? ||
                                          Get(m.value.fields, "results").Obj?)
    ensures var j := SummaryOf(st, e, None, false).value;
      var r := GetJobReply(st, j.jobId);
      r.Ok? && r.body.busNumber == j.busNumber && r.body.latlong == j.latlong &&
      r.body.timestamp == j.timestamp && r.body.totalImages == j.totalImages &&
      r.body.status == j.status
  {
    var jobId := FolderId(e.name);
    var m := ReadJson(st, MetadataKey(jobId)).value;
    SummaryFields(jobId, m, None, false);
  }

  /** `get_job` and `get_results` are independent: a job can have results while its
      record is missing, and the reverse. */
  lemma ResultsWithoutRecord(jobId: string, results: Json)
    ensures var st := Store(map[ResultsKey(jobId) := Doc(results)], {}, {});
      GetJobReply(st, jobId).Error? && GetJobReply(st, jobId).code == 404 &&
      GetResultsReply(st, jobId) == Ok(results)
  {
    KeyLayout(jobId, jobId);
  }

  // ---- get_stats ----

  /** The body of `GET /stats`, less `alert_rate`. */
  datatype Stats = Stats(total: nat, pending: nat, processing: nat, completed: nat,
                         failed: nat, totalAlerts: nat)

  const NoStats: Stats := Stats(0, 0, 0, 0, 0, 0)

  /** The counters after one more listing entry. `total` counts every folder, readable or
      not; a completed record whose `results` is not a dict is counted as completed before
      the alert check raises. */
  function Tally(s: Stats, st: Store, e: Entry): Stats {
    if !e.isDir then s
    else
      var s1 := s.(total := s.total + 1);
      match ReadJson(st, MetadataKey(FolderId(e.name)))
      case Failed(_) => s1
      case Found(m) =>
        if !m.Obj? then s1
        else
          var status := GetOr(m.fields, "status", Str("unknown"));
          if status == Str("pending") then s1.(pending := s1.pending + 1)
          else if status == Str("processing") then s1.(processing := s1.processing + 1)
          else if status == Str("completed") then
            var s2 := s1.(completed := s1.completed + 1);
            if AlertRaised(m.fields) then s2.(totalAlerts := s2.totalAlerts + 1) else s2
          else if status == Str("failed") then s1.(failed := s1.failed + 1)
          else s1
  }

  /** The counters over `entries`. */
  function StatsAmong(st: Store, entries: seq<Entry>): Stats
    decreases |entries|
  {
    if entries == [] then NoStats
    else Tally(StatsAmong(st, entries[..|entries| - 1]), st, entries[|entries| - 1])
  }

  /** `GET /stats`: a listing that raises answers 500. */
  function StatsReply(st: Store, l: Listing): Reply<Stats> {
    if l.fails then ServerError() else Ok(StatsAmong(st, l.entries))
  }

  /** `alert_rate` before rounding: the share of completed jobs with an alert, in percent. */
  function AlertRate(s: Stats): real {
    if s.completed > 0 then (s.totalAlerts as real) / (s.completed as real) * 100.0 else 0.0
  }

  /** `get_stats()`. */
  method GetStats(client: Client, l: Listing) returns (r: Reply<Stats>)
    ensures r == StatsReply(client.store, l)
  {
    var total, pending, processing, completed, failed, alerts := 0, 0, 0, 0, 0, 0;
    var i := 0;
    while i < |l.entries|
      invariant 0 <= i <= |l.entries|
      invariant Stats(total, pending, processing, completed, failed, alerts) ==
                StatsAmong(client.store, l.entries[..i])
    {
      var e := l.entries[i];
      assert l.entries[..i + 1][..i] == l.entries[..i];
      ghost var next := Tally(Stats(total, pending, processing, completed, failed, alerts), client.store, e);
      assert next == StatsAmong(client.store, l.entries[..i + 1]);
      if e.isDir {
        var jobId := FolderId(e.name);
        total := total + 1;
        var m := client.GetJson(MetadataKey(jobId));
        if m.Found? && m.value.Obj? {
          var status := GetOr(m.value.fields, "status", Str("unknown"));
          if status == Str("pending") {
            pending := pending + 1;
          } else if status == Str("processing") {
            processing := processing + 1;
          } else if status == Str("completed") {
            completed := completed + 1;
            var results := GetOr(m.value.fields, "results", Empty);
            if results.Obj? && Truthy(Get(results.fields, "alert")) {
              alerts := alerts + 1;
            }
          } else if status == Str("failed") {
            failed := failed + 1;
          }
        }
      }
      assert Stats(total, pending, processing, completed, failed, alerts) == next;
      i := i + 1;
    }
    assert l.entries[..i] == l.entries;
    if l.fails {
      return ServerError();
    }
    r := Ok(Stats(total, pending, processing, completed, failed, alerts));
  }

  /** `total_jobs` counts every folder; the four status counts together never exceed it,
      and alerts are counted among completed jobs only. */
  lemma {:induction false} StatsBounds(st: Store, entries: seq<Entry>)
    decreases |entries|
    ensures var s := StatsAmong(st, entries);
      s.total == Folders(entries) &&
      s.pending + s.processing + s.completed + s.failed <= s.total &&
      s.totalAlerts <= s.completed
  {
    if entries != [] {
      StatsBounds(st, entries[..|entries| - 1]);
    }
  }

  /** A share of `c` things, `a` of them counted, lies between 0 and 100 percent. */
  lemma Percent(a: nat, c: nat)
    requires 0 < c && a <= c
    ensures 0.0 <= (a as real) / (c as real) * 100.0 <= 100.0
  {
    var x, y := a as real, c as real;
    assert x / y == x * (1.0 / y);
    assert x * (1.0 / y) <= y * (1.0 / y);
  }

  /** `alert_rate` is 0 with no completed job and a percentage otherwise. */
  lemma AlertRateBounds(st: Store, entries: seq<Entry>)
    ensures var s := StatsAmong(st, entries);
      (s.completed == 0 ==> AlertRate(s) == 0.0) && 0.0 <= AlertRate(s) <= 100.0
  {
    var s := StatsAmong(st, entries);
    StatsBounds(st, entries);
    if s.completed > 0 {
      Percent(s.totalAlerts, s.completed);
    }
  }

  /** The count `get_stats` keeps for one of the four statuses. */
  function StatusCount(s: Stats, status: string): nat {
    if status == "pending" then s.pending
    else if status == "processing" then s.processing
    else if status == "completed" then s.completed
    else if status == "failed" then s.failed
    else s.total
  }

  /** 1 for a summary, 0 for none. */
  function Count(o: Option<JobSummary>): nat {
    if o.Some? then 1 else 0
  }

  /** One more entry adds to the counters at least what it adds to the lists. */
  lemma TallyCovers(s: Stats, st: Store, e: Entry, status: string)
    ensures var t := Tally(s, st, e);
      StatusCount(t, status) >= StatusCount(s, status) + Count(SummaryOf(st, e, Some(status), false)) &&
      t.totalAlerts >= s.totalAlerts + Count(SummaryOf(st, e, Some("completed"), true)) &&
      t.total >= s.total + Count(SummaryOf(st, e, None, false))
  {
    if e.isDir {
      var jobId := FolderId(e.name);
      var m := ReadJson(st, MetadataKey(jobId));
      if m.Found? && m.value.Obj? {
        StatusFilterExact(jobId, m.value, Some(status), false);
        StatusFilterExact(jobId, m.value, Some("completed"), true);
        AlertFilterExact(jobId, m.value, Some("completed"));
        if Summarize(jobId, m.value, None, false).Some? {
          SummaryFields(jobId, m.value, None, false);
        }
      }
    }
  }

  /** Listing by a status never shows more jobs than `get_stats` counts for it, the
      alerts of completed jobs never more than `total_alerts`, and the whole list never
      more than `total_jobs`. */
  lemma {:induction false} ListWithinStats(st: Store, entries: seq<Entry>, status: string)
    decreases |entries|
    ensures var s := StatsAmong(st, entries);
      |Summaries(st, entries, Some(status), false)| <= StatusCount(s, status) &&
      |Summaries(st, entries, Some("completed"), true)| <= s.totalAlerts &&
      |Summaries(st, entries, None, false)| <= s.total
  {
    if entries != [] {
      var init, e := entries[..|entries| - 1], entries[|entries| - 1];
      ListWithinStats(st, init, status);
      TallyCovers(StatsAmong(st, init), st, e, status);
      assert |Summaries(st, entries, Some(status), false)| ==
             |Summaries(st, init, Some(status), false)| + Count(SummaryOf(st, e, Some(status), false));
      assert |Summaries(st, entries, Some("completed"), true)| ==
             |Summaries(st, init, Some("completed"), true)| + Count(SummaryOf(st, e, Some("completed"), true));
      assert |Summaries(st, entries, None, false)| ==
             |Summaries(st, init, None, false)| + Count(SummaryOf(st, e, None, false));
    }
  }
}
