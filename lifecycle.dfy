/** The job lifecycle across the services: what the upload service and the consumer
    leave in the bucket, and what the results service then reports about it. The consumer
    never copies results into a job record, while the results service looks for them
    there; so in a bucket written only by these services no job is ever reported with an
    alert. */
module Lifecycle {
  import opened Wrappers
  import opened JsonDoc
  import opened Text
  import opened Clock
  import opened Bucket
  import opened Http
  import Consumer
  import ResultsApi
  import UploadApi

  // ---- the invariant ----

  /** An object that is not a job record with a "results" field. */
  predicate Clean(key: string, b: Blob) {
    EndsWith(key, MetadataSuffix) && b.Doc? && b.json.Obj? ==> "results" !in b.json.fields
  }

  /** No job record in the bucket holds a "results" field. */
  ghost predicate NoResultsInRecords(st: Store) {
    forall k :: k in st.objects ==> Clean(k, st.objects[k])
  }

  /** Putting a clean object keeps the invariant. */
  lemma PutClean(st: Store, key: string, b: Blob)
    requires NoResultsInRecords(st) && Clean(key, b) && Put(st, key, b).Some?
    ensures NoResultsInRecords(Put(st, key, b).value)
  {
  }

  /** `update_job_status` keeps the invariant: the record it writes has a "results" field
      exactly when the record it read had one. */
  lemma StatusUpdateClean(st: Store, jobId: string, status: string, results: Option<Json>,
                          now: DateTime)
    requires NoResultsInRecords(st)
    ensures NoResultsInRecords(Consumer.StatusUpdate(st, jobId, status, results, now).store)
  {
    var u := Consumer.StatusUpdate(st, jobId, status, results, now);
    if u.ok {
      var key := MetadataKey(jobId);
      Consumer.StatusUpdateRecord(st, jobId, status, results, now);
      var before := ReadJson(st, key).value;
      var after := ReadJson(u.store, key).value;
      assert st.objects[key] == Doc(before);
      assert Clean(key, st.objects[key]);
      assert "results" !in after.fields;
      assert u.store.objects == st.objects[key := Doc(after)];
    }
  }

  lemma FailClean(st: Store, jobId: string, message: string, finished: DateTime)
    requires NoResultsInRecords(st)
    ensures NoResultsInRecords(Consumer.Fail(st, jobId, message, finished).store)
  {
    StatusUpdateClean(st, jobId, "failed", Some(Consumer.ErrorDetail(message)), finished);
  }

  lemma CompleteClean(st: Store, jobId: string, result: Json, finished: DateTime)
    requires NoResultsInRecords(st)
    ensures NoResultsInRecords(Consumer.Complete(st, jobId, result, finished).store)
  {
    KeyLayout(jobId, jobId);
    match Put(st, ResultsKey(jobId), Doc(result))
    case None =>
      FailClean(st, jobId, "results upload failed", finished);
    case Some(st') =>
      PutClean(st, ResultsKey(jobId), Doc(result));
      StatusUpdateClean(st', jobId, "completed", Some(result), finished);
  }

  /** `process_job` keeps the invariant: `results.json` is not a job record, and the
      status updates keep the record's fields. */
  lemma ProcessClean(st: Store, jobId: string, metadata: Json, outcome: Consumer.BackendOutcome,
                     started: DateTime, finished: DateTime)
    requires NoResultsInRecords(st)
    ensures NoResultsInRecords(Consumer.ProcessOutcome(st, jobId, metadata, outcome, started, finished).store)
  {
    if !Has(metadata, "bus_number") || !Has(metadata, "total_images") {
      FailClean(st, jobId, "KeyError", finished);
    } else {
      var first := Consumer.StatusUpdate(st, jobId, "processing", None, started);
      StatusUpdateClean(st, jobId, "processing", None, started);
      Consumer.ProcessStages(st, jobId, metadata, outcome, started, finished);
      if GetObject(st, ImagesKey(jobId)).Found? && Has(metadata, "latlong") && Consumer.Succeeded(outcome) {
        CompleteClean(first.store, jobId, outcome.body.value, finished);
      } else {
        FailClean(first.store, jobId, "", finished);
      }
    }
  }

  /** Applying clean puts keeps every object clean. */
  lemma {:induction false} AppliedClean(objects: map<string, Blob>, ws: seq<Write>)
    requires forall k :: k in objects ==> Clean(k, objects[k])
    requires forall i :: 0 <= i < |ws| ==> Clean(ws[i].key, ws[i].blob)
    decreases |ws|
    ensures var r := UploadApi.Applied(objects, ws); forall k :: k in r ==> Clean(k, r[k])
  {
    if ws != [] {
      var next := objects[ws[0].key := ws[0].blob];
      assert Clean(ws[0].key, ws[0].blob);
      forall k | k in next ensures Clean(k, next[k]) {
        if k != ws[0].key {
          assert next[k] == objects[k];
        }
      }
      forall i | 0 <= i < |ws[1..]| ensures Clean(ws[1..][i].key, ws[1..][i].blob) {
        assert ws[1..][i] == ws[i + 1];
      }
      AppliedClean(next, ws[1..]);
      assert UploadApi.Applied(objects, ws) == UploadApi.Applied(next, ws[1..]);
    }
  }

  /** The three objects an upload puts are clean: the new record has no results, and the
      archive and the log are not job records. */
  lemma UploadWritesClean(jobId: string, req: UploadApi.UploadRequest, now: DateTime, count: nat)
    ensures forall w :: w in UploadApi.UploadWrites(jobId, req, now, count) ==> Clean(w.key, w.blob)
  {
    var ws := UploadApi.UploadWrites(jobId, req, now, count);
    UploadApi.InitialMetadataShape(jobId, req, now, count);
    KeyLayout(jobId, jobId);
    assert Clean(ws[0].key, ws[0].blob) && Clean(ws[1].key, ws[1].blob) && Clean(ws[2].key, ws[2].blob);
  }

  /** An upload keeps the invariant, whichever of its puts are taken. */
  lemma UploadClean(st: Store, req: UploadApi.UploadRequest, now: DateTime,
                    zipNames: Option<seq<string>>)
    requires NoResultsInRecords(st)
    ensures NoResultsInRecords(UploadApi.UploadOutcome(st, req, now, zipNames).store)
  {
    if UploadApi.Rejection(req, zipNames).None? {
      var o := UploadApi.UploadOutcome(st, req, now, zipNames);
      var jobId := UploadApi.JobId(req.busNumber, now);
      var ws := UploadApi.UploadWrites(jobId, req, now, UploadApi.ImageCount(zipNames.value));
      UploadApi.UploadStored(st, req, now, zipNames);
      UploadWritesClean(jobId, req, now, UploadApi.ImageCount(zipNames.value));
      forall i | 0 <= i < |o.writes| ensures Clean(o.writes[i].key, o.writes[i].blob) {
        assert o.writes[i] == ws[i] && ws[i] in ws;
      }
      AppliedClean(st.objects, o.writes);
    }
  }

  // ---- every bucket these services build ----

  /** One request to a writer: an upload, a `process_job` call, or an
      `update_job_status` call on its own. */
  datatype Action =
    | Upload(req: UploadApi.UploadRequest, now: DateTime, zipNames: Option<seq<string>>)
    | Process(jobId: string, metadata: Json, outcome: Consumer.BackendOutcome,
              started: DateTime, finished: DateTime)
    | SetStatus(jobId: string, status: string, results: Option<Json>, now: DateTime)

  /** The bucket after one action. */
  function Step(st: Store, a: Action): Store {
    match a
    case Upload(req, now, zipNames) => UploadApi.UploadOutcome(st, req, now, zipNames).store
    case Process(jobId, metadata, outcome, started, finished) =>
      Consumer.ProcessOutcome(st, jobId, metadata, outcome, started, finished).store
    case SetStatus(jobId, status, results, now) =>
      Consumer.StatusUpdate(st, jobId, status, results, now).store
  }

  /** The bucket after the actions, in order. */
  function Replay(st: Store, actions: seq<Action>): Store
    decreases |actions|
  {
    if actions == [] then st else Replay(Step(st, actions[0]), actions[1..])
  }

  /** Starting from a bucket with no results in its records (an empty one, say), no
      sequence of uploads, job runs and status updates ever puts results into a record. */
  lemma {:induction false} ReplayClean(st: Store, actions: seq<Action>)
    requires NoResultsInRecords(st)
    decreases |actions|
    ensures NoResultsInRecords(Replay(st, actions))
  {
    if actions != [] {
      match actions[0] {
        case Upload(req, now, zipNames) => UploadClean(st, req, now, zipNames);
        case Process(jobId, metadata, outcome, started, finished) =>
          ProcessClean(st, jobId, metadata, outcome, started, finished);
        case SetStatus(jobId, status, results, now) => StatusUpdateClean(st, jobId, status, results, now);
      }
      ReplayClean(Step(st, actions[0]), actions[1..]);
    }
  }

  /** A record read from a clean bucket has no "results" field. */
  lemma RecordReadClean(st: Store, jobId: string)
    requires NoResultsInRecords(st)
    ensures var r := ReadJson(st, MetadataKey(jobId));
      r.Found? && r.value.Obj? ==> "results" !in r.value.fields
  {
    var key := MetadataKey(jobId);
    KeyLayout(jobId, jobId);
    var r := ReadJson(st, key);
    if r.Found? && r.value.Obj? {
      assert st.objects[key] == Doc(r.value);
      assert Clean(key, st.objects[key]);
    }
  }

  /** A record without "results" never passes the alert filter, and its summary carries
      neither matches nor an alert. */
  lemma NoResultsNoAlert(jobId: string, m: Json, status: Option<string>)
    requires m.Obj? ==> "results" !in m.fields
    ensures ResultsApi.Summarize(jobId, m, status, true).None?
    ensures var j := ResultsApi.Summarize(jobId, m, status, false);
      j.Some? ==> j.value.matchesFound.None? && j.value.alert.None?
    ensures m.Obj? ==> !ResultsApi.AlertRaised(m.fields)
  {
    if m.Obj? {
      assert ResultsApi.ResultsOf(m.fields) == Empty;
      if ResultsApi.Summarize(jobId, m, status, false).Some? {
        ResultsApi.SummaryFields(jobId, m, status, false);
      }
    }
  }

  /** One listing entry of a clean bucket: no alert-only summary, no matches or alert in
      its summary, and no alert counted. */
  lemma EntryNoAlert(st: Store, e: Entry, status: Option<string>, s: ResultsApi.Stats)
    requires NoResultsInRecords(st)
    ensures ResultsApi.SummaryOf(st, e, status, true).None?
    ensures var j := ResultsApi.SummaryOf(st, e, status, false);
      j.Some? ==> j.value.matchesFound.None? && j.value.alert.None?
    ensures ResultsApi.Tally(s, st, e).totalAlerts == s.totalAlerts
  {
    if e.isDir {
      RecordReadClean(st, FolderId(e.name));
      var r := ReadJson(st, MetadataKey(FolderId(e.name)));
      if r.Found? {
        NoResultsNoAlert(FolderId(e.name), r.value, status);
      }
    }
  }

  /** With no results in the records, no summary passes the alert filter, every summary
      has neither a match count nor an alert, and no completed job is counted as alerting. */
  lemma {:induction false} NoAlertsReported(st: Store, es: seq<Entry>, status: Option<string>)
    requires NoResultsInRecords(st)
    decreases |es|
    ensures ResultsApi.Summaries(st, es, status, true) == []
    ensures forall j :: j in ResultsApi.Summaries(st, es, status, false) ==>
              j.matchesFound.None? && j.alert.None?
    ensures ResultsApi.StatsAmong(st, es).totalAlerts == 0
  {
    if es != [] {
      var init, e := es[..|es| - 1], es[|es| - 1];
      NoAlertsReported(st, init, status);
      EntryNoAlert(st, e, status, ResultsApi.StatsAmong(st, init));
    }
  }

  /** In any bucket the services build from an empty one, `GET /jobs?alert_only=true`
      answers 500 or an empty page, and `GET /stats` reports no alerts. */
  lemma AlertOnlyEmpty(actions: seq<Action>, l: Listing, status: Option<string>, limit: int)
    ensures var st := Replay(EmptyStore, actions);
      var r := ResultsApi.ListJobsReply(st, l, ResultsApi.Query(status, true, limit));
      (r.Error? && r.code == 500) || (r.Ok? && r.body.jobs == [] && r.body.total == 0)
    ensures var st := Replay(EmptyStore, actions);
      var s := ResultsApi.StatsReply(st, l);
      s.Ok? ==> s.body.totalAlerts == 0 && ResultsApi.AlertRate(s.body) == 0.0
  {
    ReplayClean(EmptyStore, actions);
    var st := Replay(EmptyStore, actions);
    NoAlertsReported(st, l.entries, status);
  }

  // ---- across services ----

  /** A job id ends in a digit of its stamp, so its folder name, the id with '/', strips
      back to the id. */
  lemma FolderOfJob(bus: string, now: DateTime)
    requires Valid(now)
    ensures FolderId(UploadApi.JobId(bus, now) + "/") == UploadApi.JobId(bus, now)
  {
    var id := UploadApi.JobId(bus, now);
    StampExact(now, now);
    var f := Fixed(now.second, 2);
    assert id[|id| - 1] == f[1];
    assert f[1] != '/';
    RStripAppended(id, '/');
  }

  /** A folder whose record reads back as a freshly uploaded one is picked up by the
      consumer's scan and listed by `GET /jobs` as pending, with no results. */
  lemma NewRecordSeen(st: Store, jobId: string, req: UploadApi.UploadRequest, now: DateTime, count: nat)
    requires FolderId(jobId + "/") == jobId
    requires ReadJson(st, MetadataKey(jobId)) == Found(UploadApi.InitialMetadata(jobId, req, now, count))
    ensures var e := Entry(jobId + "/", true);
      Consumer.PendingEntry(st, e).Some? && Consumer.PendingEntry(st, e).value.jobId == jobId &&
      ResultsApi.SummaryOf(st, e, None, false) ==
        Some(ResultsApi.JobSummary(jobId, req.busNumber, req.latlong, IsoFormat(now), count,
                                   "pending", None, None))
  {
    var m := UploadApi.InitialMetadata(jobId, req, now, count);
    UploadApi.InitialMetadataShape(jobId, req, now, count);
    assert ResultsApi.ResultsOf(m.fields) == Empty;
  }

  /** After an upload is queued, the consumer's scan picks the new job up from a listing
      holding its folder, and `GET /jobs` lists it as pending, stamped with the upload time
      and with the bus and image count of the upload. */
  lemma UploadThenScan(st: Store, req: UploadApi.UploadRequest, now: DateTime,
                       zipNames: Option<seq<string>>)
    requires Valid(now) && UploadApi.Rejection(req, zipNames).None?
    requires UploadApi.UploadOutcome(st, req, now, zipNames).reply.Ok?
    requires MetadataKey(UploadApi.JobId(req.busNumber, now)) !in st.readFaults
    ensures var st' := UploadApi.UploadOutcome(st, req, now, zipNames).store;
      var jobId := UploadApi.JobId(req.busNumber, now);
      var e := Entry(jobId + "/", true);
      Consumer.PendingEntry(st', e).Some? && Consumer.PendingEntry(st', e).value.jobId == jobId &&
      ResultsApi.SummaryOf(st', e, None, false) ==
        Some(ResultsApi.JobSummary(jobId, req.busNumber, req.latlong, IsoFormat(now),
                                   UploadApi.ImageCount(zipNames.value), "pending", None, None))
  {
    var jobId := UploadApi.JobId(req.busNumber, now);
    UploadApi.UploadQueued(st, req, now, zipNames);
    FolderOfJob(req.busNumber, now);
    NewRecordSeen(UploadApi.UploadOutcome(st, req, now, zipNames).store, jobId, req, now,
                  UploadApi.ImageCount(zipNames.value));
  }

  /** After a successful `process_job`, `GET /jobs/{job_id}/results` returns the backend's
      answer, unless reading that key fails. */
  lemma ProcessThenResults(st: Store, jobId: string, metadata: Json, outcome: Consumer.BackendOutcome,
                           started: DateTime, finished: DateTime)
    requires Consumer.ProcessOutcome(st, jobId, metadata, outcome, started, finished).ok
    requires ResultsKey(jobId) !in st.readFaults
    ensures var st' := Consumer.ProcessOutcome(st, jobId, metadata, outcome, started, finished).store;
      Consumer.Succeeded(outcome) && ResultsApi.GetResultsReply(st', jobId) == Ok(outcome.body.value)
  {
    Consumer.ProcessResults(st, jobId, metadata, outcome, started, finished);
    Consumer.ProcessFrame(st, jobId, metadata, outcome, started, finished);
  }

  /** Both services' `GET /stats` count the same folders: the upload service's
      `total_jobs` equals the results service's for the same listing. */
  lemma StatsAgree(st: Store, l: Listing)
    ensures var u := UploadApi.UploadStatsReply(l);
      var r := ResultsApi.StatsReply(st, l);
      u.Ok? <==> r.Ok?
    ensures !l.fails ==>
      UploadApi.UploadStatsReply(l).body == ResultsApi.StatsReply(st, l).body.total
  {
    ResultsApi.StatsBounds(st, l.entries);
  }
}
