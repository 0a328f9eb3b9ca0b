/** The consumer: it scans the bucket for pending jobs, marks each one `processing`,
    sends its archive to the inference backend and records the outcome. The job record
    is rewritten by a read-modify-write with no check of the status it replaces. */
module Consumer {
  import opened Wrappers
  import opened JsonDoc
  import opened Text
  import opened Clock
  import opened Bucket

  /** A job found by the scan: its id and the metadata read at scan time. */
  datatype PendingJob = PendingJob(jobId: string, metadata: Json)

  /** What the backend call produced. `Http` is a response with its status code, its text
      and, when the text decodes as JSON, that value. `Timeout` is the 300-second request
      timeout. `Failure` is any other exception raised while the archive is unpacked,
      repacked or sent. */
  datatype BackendOutcome =
    | Http(code: int, text: string, body: Option<Json>)
    | Timeout
    | Failure(message: string)

  /** The effect of one step on the bucket: the new bucket, the value the step returns,
      and the puts it made, in order. */
  datatype Update = Update(store: Store, ok: bool, writes: seq<Write>)

  const RequestTimeoutSeconds := 300
  const ConfidenceThreshold: real := 0.75

  // ---- get_pending_jobs ----

  /** A record the scan picks: a dict whose "status" is "pending". */
  predicate IsPending(m: Json) {
    m.Obj? && Get(m.fields, "status") == Str("pending")
  }

  /** The scan's decision for one listing entry. A record that is missing, unreadable,
      not JSON or not a dict is skipped. */
  function PendingEntry(st: Store, e: Entry): Option<PendingJob> {
    if !e.isDir then None
    else
      var jobId := FolderId(e.name);
      match ReadJson(st, MetadataKey(jobId))
      case Failed(_) => None
      case Found(m) => if IsPending(m) then Some(PendingJob(jobId, m)) else None
  }

  /** The jobs the scan collects from `entries`, in listing order. */
  function PendingAmong(st: Store, entries: seq<Entry>): seq<PendingJob>
    decreases |entries|
  {
    if entries == [] then []
    else
      PendingAmong(st, entries[..|entries| - 1]) +
      match PendingEntry(st, entries[|entries| - 1])
      case Some(j) => [j]
      case None => []
  }

  /** `get_pending_jobs()`: a listing that raises yields no jobs at all. */
  function PendingJobs(st: Store, l: Listing): seq<PendingJob> {
    if l.fails then [] else PendingAmong(st, l.entries)
  }

  /** The scan keeps listing order: scanning two runs of entries one after the other
      gives the jobs of the first run followed by those of the second. */
  lemma {:induction false} PendingAmongConcat(st: Store, a: seq<Entry>, b: seq<Entry>)
    decreases |b|
    ensures PendingAmong(st, a + b) == PendingAmong(st, a) + PendingAmong(st, b)
  {
    if b == [] {
      assert a + b == a;
    } else {
      var b' := b[..|b| - 1];
      assert (a + b)[..|a + b| - 1] == a + b';
      assert (a + b)[|a + b| - 1] == b[|b| - 1];
      PendingAmongConcat(st, a, b');
    }
  }

  lemma {:induction false} PendingAmongMembers(st: Store, es: seq<Entry>, j: PendingJob)
    decreases |es|
    ensures j in PendingAmong(st, es) <==> exists e :: e in es && PendingEntry(st, e) == Some(j)
  {
    if es != [] {
      var es', last := es[..|es| - 1], es[|es| - 1];
      assert es == es' + [last];
      PendingAmongMembers(st, es', j);
      if PendingEntry(st, last) == Some(j) {
        assert last in es;
      }
      if exists e :: e in es && PendingEntry(st, e) == Some(j) {
        var e :| e in es && PendingEntry(st, e) == Some(j);
        if e != last {
          assert e in es';
        }
      }
    }
  }

  /** The scan returns exactly the directory entries whose record reads back as a dict
      with status "pending", each with the entry's name less its trailing '/' as job id
      and the record as read; when the listing raises it returns nothing. */
  lemma PendingJobsExact(st: Store, l: Listing)
    ensures l.fails ==> PendingJobs(st, l) == []
    ensures !l.fails ==> forall j :: j in PendingJobs(st, l) <==>
      exists e :: e in l.entries && e.isDir && j.jobId == FolderId(e.name) &&
                  ReadJson(st, MetadataKey(j.jobId)) == Found(j.metadata) && IsPending(j.metadata)
  {
    if !l.fails {
      forall j
        ensures j in PendingJobs(st, l) <==>
          exists e :: e in l.entries && e.isDir && j.jobId == FolderId(e.name) &&
                      ReadJson(st, MetadataKey(j.jobId)) == Found(j.metadata) && IsPending(j.metadata)
      {
        PendingAmongMembers(st, l.entries, j);
      }
    }
  }

  // ---- update_job_status ----

  /** Every field other than "status" and "updated_at" is present in `after` exactly when
      it is in `before`, with the same value. */
  ghost predicate FieldsKept(before: map<string, Json>, after: map<string, Json>) {
    forall f :: f != "status" && f != "updated_at" ==>
      (f in after <==> f in before) && (f in before ==> after[f] == before[f])
  }

  /** `after` is the record `before` with "status" and "updated_at" set and every other
      field as it was. */
  ghost predicate OnlyStatusChanged(before: map<string, Json>, after: map<string, Json>,
                              status: string, stamp: string) {
    "status" in after && after["status"] == Str(status) &&
    "updated_at" in after && after["updated_at"] == Str(stamp) &&
    FieldsKept(before, after)
  }

  /** The record of `jobId` reads back as a dict and may be written. */
  predicate RecordWritable(st: Store, jobId: string) {
    var r := ReadJson(st, MetadataKey(jobId));
    r.Found? && r.value.Obj? && MetadataKey(jobId) !in st.writeFaults
  }

  /** The status stored in the record of `jobId`, if it reads back as a dict with a string status. */
  function StoredStatus(st: Store, jobId: string): Option<string> {
    match ReadJson(st, MetadataKey(jobId))
    case Found(Obj(f)) => if "status" in f && f["status"].Str? then Some(f["status"].s) else None
    case _ => None
  }

  /** The status a put writes, when it writes a dict with a string status. */
  function StatusWritten(w: Write): Option<string> {
    if w.blob.Doc? && w.blob.json.Obj? && "status" in w.blob.json.fields &&
       w.blob.json.fields["status"].Str?
    then Some(w.blob.json.fields["status"].s) else None
  }

  /** `update_job_status(job_id, status, results)` at time `now`. It succeeds exactly when
      the record reads back as a dict and the write is accepted; then it is one put to the
      record's key and nothing else changes; a failure leaves the bucket as it was. */
  function StatusUpdate(st: Store, jobId: string, status: string, results: Option<Json>,
                        now: DateTime): (u: Update)
    ensures u.ok <==> RecordWritable(st, jobId)
    ensures u.store.readFaults == st.readFaults && u.store.writeFaults == st.writeFaults
    ensures !u.ok ==> u.store == st && u.writes == []
    ensures u.ok ==> (|u.writes| == 1 && u.writes[0].key == MetadataKey(jobId) &&
                     u.store.objects == st.objects[MetadataKey(jobId) := u.writes[0].blob])
  {
    var key := MetadataKey(jobId);
    match ReadJson(st, key)
    case Failed(_) => Update(st, false, [])
    case Found(m) =>
      if !m.Obj? then Update(st, false, [])
      else
        // `results` is accepted and deliberately not added to the record
        var record := Obj(m.fields["status" := Str(status)]["updated_at" := Str(IsoFormat(now))]);
        match Put(st, key, Doc(record))
        case None => Update(st, false, [])
        case Some(st') => Update(st', true, [Write(key, Doc(record))])
  }

  /** A successful update overwrites whatever status the record had: the record written
      is the one read with only "status" and "updated_at" set, so fields such as
      "results" are neither added nor dropped, and it can be read and written again. */
  lemma StatusUpdateRecord(st: Store, jobId: string, status: string, results: Option<Json>,
                           now: DateTime)
    requires RecordWritable(st, jobId)
    ensures var u := StatusUpdate(st, jobId, status, results, now);
      var r := ReadJson(u.store, MetadataKey(jobId));
      r.Found? && r.value.Obj? && RecordWritable(u.store, jobId) &&
      OnlyStatusChanged(ReadJson(st, MetadataKey(jobId)).value.fields, r.value.fields,
                        status, IsoFormat(now)) &&
      StoredStatus(u.store, jobId) == Some(status) &&
      u.writes == [Write(MetadataKey(jobId), Doc(r.value))] &&
      StatusWritten(u.writes[0]) == Some(status)
  {
  }

  /** The results passed to `update_job_status` make no difference to what it does. */
  lemma StatusUpdateIgnoresResults(st: Store, jobId: string, status: string,
                                   r1: Option<Json>, r2: Option<Json>, now: DateTime)
    ensures StatusUpdate(st, jobId, status, r1, now) == StatusUpdate(st, jobId, status, r2, now)
  {
  }

  // ---- process_job ----

  /** The `{'error': ...}` value handed to `update_job_status` on a failure. */
  function ErrorDetail(message: string): Json {
    Obj(map["error" := Str(message)])
  }

  /** An exception path of `process_job`: mark the job failed (the update may itself fail)
      and report false. */
  function Fail(st: Store, jobId: string, message: string, finished: DateTime): Update {
    var u := StatusUpdate(st, jobId, "failed", Some(ErrorDetail(message)), finished);
    Update(u.store, false, u.writes)
  }

  /** The success path once the backend answered 200 with `result`: store
      `results.json`, then mark the job completed (that update's outcome is ignored). */
  function Complete(st: Store, jobId: string, result: Json, finished: DateTime): Update {
    match Put(st, ResultsKey(jobId), Doc(result))
    case None => Fail(st, jobId, "results upload failed", finished)
    case Some(st') =>
      var last := StatusUpdate(st', jobId, "completed", Some(result), finished);
      Update(last.store, true, [Write(ResultsKey(jobId), Doc(result))] + last.writes)
  }

  /** The backend answered 200 with a JSON object. */
  predicate Succeeded(outcome: BackendOutcome) {
    outcome.Http? && outcome.code == 200 && outcome.body.Some? && outcome.body.value.Obj?
  }

  /** The exception `process_job` meets once the job was marked processing: the archive
      download, the "latlong" lookup, then the backend call and the decoding of its answer.
      None when the backend's answer is to be stored. The source extracts and re-zips the
      archive between the download and the "latlong" lookup; an error there is not a case
      of its own here but a `Failure` of the backend call, so it is checked after
      "latlong". Either way the job is marked failed and the message is not kept. */
  function ClaimFailure(st: Store, jobId: string, metadata: Json, outcome: BackendOutcome): (r: Option<string>)
    ensures r.None? <==> GetObject(st, ImagesKey(jobId)).Found? && Has(metadata, "latlong") && Succeeded(outcome)
  {
    if !GetObject(st, ImagesKey(jobId)).Found? then Some("download failed")
    else if !Has(metadata, "latlong") then Some("KeyError")
    else
      match outcome
      case Timeout => Some("Timeout")
      case Failure(message) => Some(message)
      case Http(code, text, body) =>
        if code != 200 then Some(text)
        else if body.None? || !body.value.Obj? then Some("response is not a JSON object")
        else None
  }

  /** `process_job` once the job was marked processing: download the archive, then
      call the backend, and record the outcome. */
  function AfterClaim(st: Store, jobId: string, metadata: Json, outcome: BackendOutcome,
                      finished: DateTime): Update {
    match ClaimFailure(st, jobId, metadata, outcome)
    case Some(message) => Fail(st, jobId, message, finished)
    case None => Complete(st, jobId, outcome.body.value, finished)
  }

  /** `process_job(job_id, metadata)` on the bucket `st`, given what the backend does.
      `started` and `finished` are the clock readings of the two status updates. */
  function ProcessOutcome(st: Store, jobId: string, metadata: Json, outcome: BackendOutcome,
                          started: DateTime, finished: DateTime): Update
  {
    if !Has(metadata, "bus_number") || !Has(metadata, "total_images") then
      Fail(st, jobId, "KeyError", finished)
    else
      var first := StatusUpdate(st, jobId, "processing", None, started);
      var rest := AfterClaim(first.store, jobId, metadata, outcome, finished);
      Update(rest.store, rest.ok, first.writes + rest.writes)
  }

  /** The error detail passed along does not change what a failure path does. */
  lemma FailIgnoresMessage(st: Store, jobId: string, m1: string, m2: string, finished: DateTime)
    ensures Fail(st, jobId, m1, finished) == Fail(st, jobId, m2, finished)
  {
    StatusUpdateIgnoresResults(st, jobId, "failed", Some(ErrorDetail(m1)), Some(ErrorDetail(m2)), finished);
  }

  /** The reading of `process_job` common to the lemmas below: which stage decided it. */
  lemma ProcessStages(st: Store, jobId: string, metadata: Json, outcome: BackendOutcome,
                      started: DateTime, finished: DateTime)
    ensures var first := StatusUpdate(st, jobId, "processing", None, started);
      var rest := AfterClaim(first.store, jobId, metadata, outcome, finished);
      var answered := GetObject(st, ImagesKey(jobId)).Found? && Has(metadata, "latlong") && Succeeded(outcome);
      (!answered ==> rest == Fail(first.store, jobId, "", finished)) &&
      (answered ==> rest == Complete(first.store, jobId, outcome.body.value, finished))
  {
    KeyLayout(jobId, jobId);
    var fs := StatusUpdate(st, jobId, "processing", None, started).store;
    assert GetObject(fs, ImagesKey(jobId)) == GetObject(st, ImagesKey(jobId));
    var failure := ClaimFailure(fs, jobId, metadata, outcome);
    if failure.Some? {
      FailIgnoresMessage(fs, jobId, failure.value, "", finished);
    }
  }

  /** The effect after the claim: it writes "results.json" and then "completed" on
      success, and only "failed" otherwise. */
  lemma AfterClaimWrites(st: Store, jobId: string, metadata: Json, outcome: BackendOutcome,
                         started: DateTime, finished: DateTime)
    ensures var first := StatusUpdate(st, jobId, "processing", None, started);
      var r := AfterClaim(first.store, jobId, metadata, outcome, finished);
      (r.ok <==> GetObject(st, ImagesKey(jobId)).Found? && Has(metadata, "latlong") &&
                 Succeeded(outcome) && ResultsKey(jobId) !in st.writeFaults) &&
      r.store.readFaults == st.readFaults && r.store.writeFaults == st.writeFaults &&
      (forall k :: k != MetadataKey(jobId) && k != ResultsKey(jobId) ==> AgreeOn(first.store, r.store, k)) &&
      (r.ok ==> Succeeded(outcome) && 1 <= |r.writes| <= 2 &&
                r.writes[0] == Write(ResultsKey(jobId), Doc(outcome.body.value)) &&
                ResultsKey(jobId) in r.store.objects &&
                r.store.objects[ResultsKey(jobId)] == Doc(outcome.body.value) &&
                forall i :: 1 <= i < |r.writes| ==>
                  r.writes[i].key == MetadataKey(jobId) && StatusWritten(r.writes[i]) == Some("completed")) &&
      (!r.ok ==> forall w :: w in r.writes ==>
                   w.key == MetadataKey(jobId) && StatusWritten(w) == Some("failed"))
  {
    ProcessStages(st, jobId, metadata, outcome, started, finished);
    var first := StatusUpdate(st, jobId, "processing", None, started);
    if GetObject(st, ImagesKey(jobId)).Found? && Has(metadata, "latlong") && Succeeded(outcome) {
      CompleteWrites(first.store, jobId, outcome.body.value, finished);
    } else {
      KeyLayout(jobId, jobId);
      StatusUpdateWrites(first.store, jobId, "failed", Some(ErrorDetail("")), finished);
    }
  }

  /** Every put of an update goes to the record and writes the requested status. */
  lemma StatusUpdateWrites(st: Store, jobId: string, status: string, results: Option<Json>,
                           now: DateTime)
    ensures var u := StatusUpdate(st, jobId, status, results, now);
      forall w :: w in u.writes ==> w.key == MetadataKey(jobId) && StatusWritten(w) == Some(status)
  {
    if RecordWritable(st, jobId) {
      StatusUpdateRecord(st, jobId, status, results, now);
    }
  }

  /** The success path: it succeeds exactly when `results.json` may be written; it then
      writes the result first and the "completed" record after it. */
  lemma CompleteWrites(st: Store, jobId: string, result: Json, finished: DateTime)
    ensures var u := Complete(st, jobId, result, finished);
      (u.ok <==> ResultsKey(jobId) !in st.writeFaults) &&
      u.store.readFaults == st.readFaults && u.store.writeFaults == st.writeFaults &&
      (forall k :: k != MetadataKey(jobId) && k != ResultsKey(jobId) ==> AgreeOn(st, u.store, k)) &&
      (u.ok ==> 1 <= |u.writes| <= 2 && u.writes[0] == Write(ResultsKey(jobId), Doc(result)) &&
                ResultsKey(jobId) in u.store.objects && u.store.objects[ResultsKey(jobId)] == Doc(result) &&
                forall i :: 1 <= i < |u.writes| ==>
                  u.writes[i].key == MetadataKey(jobId) && StatusWritten(u.writes[i]) == Some("completed")) &&
      (!u.ok ==> forall w :: w in u.writes ==>
                   w.key == MetadataKey(jobId) && StatusWritten(w) == Some("failed"))
  {
    if ResultsKey(jobId) in st.writeFaults {
      KeyLayout(jobId, jobId);
      StatusUpdateWrites(st, jobId, "failed", Some(ErrorDetail("results upload failed")), finished);
    } else {
      CompleteStored(st, jobId, result, finished);
    }
  }

  /** The success path when `results.json` may be written. */
  lemma CompleteStored(st: Store, jobId: string, result: Json, finished: DateTime)
    requires ResultsKey(jobId) !in st.writeFaults
    ensures var u := Complete(st, jobId, result, finished);
      u.ok && u.store.readFaults == st.readFaults && u.store.writeFaults == st.writeFaults &&
      (forall k :: k != MetadataKey(jobId) && k != ResultsKey(jobId) ==> AgreeOn(st, u.store, k)) &&
      1 <= |u.writes| <= 2 && u.writes[0] == Write(ResultsKey(jobId), Doc(result)) &&
      ResultsKey(jobId) in u.store.objects && u.store.objects[ResultsKey(jobId)] == Doc(result) &&
      forall i :: 1 <= i < |u.writes| ==>
        u.writes[i].key == MetadataKey(jobId) && StatusWritten(u.writes[i]) == Some("completed")
  {
    KeyLayout(jobId, jobId);
    var u := Complete(st, jobId, result, finished);
    var st' := st.(objects := st.objects[ResultsKey(jobId) := Doc(result)]);
    assert Put(st, ResultsKey(jobId), Doc(result)) == Some(st');
    var last := StatusUpdate(st', jobId, "completed", Some(result), finished);
    StatusUpdateWrites(st', jobId, "completed", Some(result), finished);
    assert u.writes == [Write(ResultsKey(jobId), Doc(result))] + last.writes;
    forall i | 1 <= i < |u.writes|
      ensures u.writes[i].key == MetadataKey(jobId) && StatusWritten(u.writes[i]) == Some("completed")
    {
      assert u.writes[i] == last.writes[i - 1] && last.writes[i - 1] in last.writes;
    }
    forall k | k != MetadataKey(jobId) && k != ResultsKey(jobId) ensures AgreeOn(st, u.store, k) {
      assert AgreeOn(st', last.store, k);
    }
  }

  /** `process_job` touches only the job's record and its `results.json`. */
  lemma ProcessFrame(st: Store, jobId: string, metadata: Json, outcome: BackendOutcome,
                     started: DateTime, finished: DateTime)
    ensures var u := ProcessOutcome(st, jobId, metadata, outcome, started, finished);
      u.store.readFaults == st.readFaults && u.store.writeFaults == st.writeFaults &&
      forall k :: k != MetadataKey(jobId) && k != ResultsKey(jobId) ==> AgreeOn(st, u.store, k)
  {
    var u := ProcessOutcome(st, jobId, metadata, outcome, started, finished);
    if Has(metadata, "bus_number") && Has(metadata, "total_images") {
      var first := StatusUpdate(st, jobId, "processing", None, started);
      var rest := AfterClaim(first.store, jobId, metadata, outcome, finished);
      AfterClaimWrites(st, jobId, metadata, outcome, started, finished);
      assert u.store == rest.store;
      forall k | k != MetadataKey(jobId) && k != ResultsKey(jobId)
        ensures AgreeOn(st, u.store, k)
      {
        assert AgreeOn(st, first.store, k);
        assert AgreeOn(first.store, rest.store, k);
      }
    }
  }

  /** `process_job` reports success exactly when the record snapshot has the fields it
      reads, the archive can be downloaded, the backend answered 200 with a JSON object
      and `results.json` could be stored. A non-200 status, a timeout or any other error
      reports failure. */
  lemma ProcessVerdict(st: Store, jobId: string, metadata: Json, outcome: BackendOutcome,
                       started: DateTime, finished: DateTime)
    ensures ProcessOutcome(st, jobId, metadata, outcome, started, finished).ok <==>
      Has(metadata, "bus_number") && Has(metadata, "total_images") && Has(metadata, "latlong") &&
      GetObject(st, ImagesKey(jobId)).Found? && Succeeded(outcome) &&
      ResultsKey(jobId) !in st.writeFaults
  {
    AfterClaimWrites(st, jobId, metadata, outcome, started, finished);
  }

  /** What `process_job` writes: on success `results.json` holds the backend's answer;
      on failure `results.json` is not written. */
  lemma ProcessResults(st: Store, jobId: string, metadata: Json, outcome: BackendOutcome,
                       started: DateTime, finished: DateTime)
    ensures var u := ProcessOutcome(st, jobId, metadata, outcome, started, finished);
      (u.ok ==> Succeeded(outcome) && ResultsKey(jobId) in u.store.objects &&
                u.store.objects[ResultsKey(jobId)] == Doc(outcome.body.value)) &&
      (!u.ok ==> forall w :: w in u.writes ==> w.key == MetadataKey(jobId))
  {
    var u := ProcessOutcome(st, jobId, metadata, outcome, started, finished);
    if !(Has(metadata, "bus_number") && Has(metadata, "total_images")) {
      StatusUpdateWrites(st, jobId, "failed", Some(ErrorDetail("KeyError")), finished);
    } else {
      var first := StatusUpdate(st, jobId, "processing", None, started);
      var rest := AfterClaim(first.store, jobId, metadata, outcome, finished);
      StatusUpdateWrites(st, jobId, "processing", None, started);
      AfterClaimWrites(st, jobId, metadata, outcome, started, finished);
      assert u.writes == first.writes + rest.writes;
    }
  }

  /** How the two halves of a `process_job` run fit together: a claim of at most one
      "processing" put, then either the results put followed by at most one "completed"
      put, or only "failed" puts. */
  lemma WritesInOrder(claim: seq<Write>, rest: seq<Write>, key: string, resultsKey: string,
                      ok: bool, result: Blob)
    requires key != resultsKey && |claim| <= 1
    requires forall w :: w in claim ==> w.key == key && StatusWritten(w) == Some("processing")
    requires ok ==> (1 <= |rest| <= 2 && rest[0] == Write(resultsKey, result) &&
                     forall i :: 1 <= i < |rest| ==>
                       rest[i].key == key && StatusWritten(rest[i]) == Some("completed"))
    requires !ok ==> forall w :: w in rest ==> w.key == key && StatusWritten(w) == Some("failed")
    ensures var ws := claim + rest;
      (forall i :: 0 <= i < |ws| && ws[i].key == key ==>
         (i == 0 && StatusWritten(ws[i]) == Some("processing")) ||
         StatusWritten(ws[i]) == Some(if ok then "completed" else "failed")) &&
      (forall i :: 0 <= i < |ws| && ws[i].key == key && StatusWritten(ws[i]) == Some("completed") ==>
         ok && 0 < i && ws[i - 1] == Write(resultsKey, result))
  {
    var ws := claim + rest;
    var n := |claim|;
    forall i | 0 <= i < n ensures i == 0 && StatusWritten(ws[i]) == Some("processing") {
      assert ws[i] == claim[i] && claim[i] in claim;
    }
    forall i | n <= i < |ws| && ws[i].key == key
      ensures StatusWritten(ws[i]) == Some(if ok then "completed" else "failed")
      ensures StatusWritten(ws[i]) == Some("completed") ==> ok && 0 < i && ws[i - 1] == Write(resultsKey, result)
    {
      assert ws[i] == rest[i - n];
      if ok {
        assert i - n == 1;
        assert ws[i - 1] == rest[0];
      } else {
        assert rest[i - n] in rest;
      }
    }
  }

  /** A run whose snapshot lacks a field it reads writes only "failed" and never succeeds. */
  lemma UnclaimedStatusOrder(st: Store, jobId: string, finished: DateTime)
    ensures var u := Fail(st, jobId, "KeyError", finished);
      !u.ok &&
      forall i :: 0 <= i < |u.writes| && u.writes[i].key == MetadataKey(jobId) ==>
        StatusWritten(u.writes[i]) == Some("failed")
  {
    var u := Fail(st, jobId, "KeyError", finished);
    StatusUpdateWrites(st, jobId, "failed", Some(ErrorDetail("KeyError")), finished);
    forall i | 0 <= i < |u.writes| && u.writes[i].key == MetadataKey(jobId)
      ensures StatusWritten(u.writes[i]) == Some("failed")
    {
      assert u.writes[i] in u.writes;
    }
  }

  /** The status order of a run that got past the snapshot's fields: the "processing"
      claim, then the puts after it. */
  lemma ClaimedStatusOrder(st: Store, jobId: string, metadata: Json, outcome: BackendOutcome,
                           started: DateTime, finished: DateTime)
    ensures var first := StatusUpdate(st, jobId, "processing", None, started);
      var rest := AfterClaim(first.store, jobId, metadata, outcome, finished);
      var ws := first.writes + rest.writes;
      (forall i :: 0 <= i < |ws| && ws[i].key == MetadataKey(jobId) ==>
         (i == 0 && StatusWritten(ws[i]) == Some("processing")) ||
         StatusWritten(ws[i]) == Some(if rest.ok then "completed" else "failed")) &&
      (forall i :: 0 <= i < |ws| && ws[i].key == MetadataKey(jobId) &&
                   StatusWritten(ws[i]) == Some("completed") ==>
         rest.ok && Succeeded(outcome) && 0 < i &&
         ws[i - 1] == Write(ResultsKey(jobId), Doc(outcome.body.value)))
  {
    KeyLayout(jobId, jobId);
    var result := if Succeeded(outcome) then Doc(outcome.body.value) else Doc(Null);
    var first := StatusUpdate(st, jobId, "processing", None, started);
    var rest := AfterClaim(first.store, jobId, metadata, outcome, finished);
    StatusUpdateWrites(st, jobId, "processing", None, started);
    AfterClaimWrites(st, jobId, metadata, outcome, started, finished);
    WritesInOrder(first.writes, rest.writes, MetadataKey(jobId), ResultsKey(jobId), rest.ok, result);
  }

  /** The order of the record's statuses: a status other than the final one can only be
      the "processing" of the first put, and "completed" is written only right after
      `results.json`. */
  lemma ProcessStatusOrder(st: Store, jobId: string, metadata: Json, outcome: BackendOutcome,
                           started: DateTime, finished: DateTime)
    ensures var u := ProcessOutcome(st, jobId, metadata, outcome, started, finished);
      (forall i :: 0 <= i < |u.writes| && u.writes[i].key == MetadataKey(jobId) ==>
         (i == 0 && StatusWritten(u.writes[i]) == Some("processing")) ||
         StatusWritten(u.writes[i]) == Some(if u.ok then "completed" else "failed")) &&
      (forall i :: 0 <= i < |u.writes| && u.writes[i].key == MetadataKey(jobId) &&
                   StatusWritten(u.writes[i]) == Some("completed") ==>
         u.ok && Succeeded(outcome) && 0 < i &&
         u.writes[i - 1] == Write(ResultsKey(jobId), Doc(outcome.body.value)))
  {
    if !(Has(metadata, "bus_number") && Has(metadata, "total_images")) {
      UnclaimedStatusOrder(st, jobId, finished);
    } else {
      ClaimedStatusOrder(st, jobId, metadata, outcome, started, finished);
    }
  }

  /** When the record can be read and written, a call that reads the snapshot's fields
      first marks it "processing" whatever status it had, and the record ends "completed"
      if the call reported success and "failed" otherwise, with its other fields kept. */
  lemma ProcessFinalStatus(st: Store, jobId: string, metadata: Json, outcome: BackendOutcome,
                           started: DateTime, finished: DateTime)
    requires RecordWritable(st, jobId)
    ensures var u := ProcessOutcome(st, jobId, metadata, outcome, started, finished);
      RecordWritable(u.store, jobId) &&
      StoredStatus(u.store, jobId) == Some(if u.ok then "completed" else "failed") &&
      FieldsKept(ReadJson(st, MetadataKey(jobId)).value.fields,
                 ReadJson(u.store, MetadataKey(jobId)).value.fields) &&
      (Has(metadata, "bus_number") && Has(metadata, "total_images") ==>
         u.writes != [] && u.writes[0].key == MetadataKey(jobId) &&
         StatusWritten(u.writes[0]) == Some("processing"))
  {
    KeyLayout(jobId, jobId);
    ProcessStages(st, jobId, metadata, outcome, started, finished);
    var key := MetadataKey(jobId);
    if !(Has(metadata, "bus_number") && Has(metadata, "total_images")) {
      StatusUpdateRecord(st, jobId, "failed", Some(ErrorDetail("")), finished);
    } else {
      var first := StatusUpdate(st, jobId, "processing", None, started);
      StatusUpdateRecord(st, jobId, "processing", None, started);
      if GetObject(st, ImagesKey(jobId)).Found? && Has(metadata, "latlong") && Succeeded(outcome) &&
         ResultsKey(jobId) !in st.writeFaults {
        var st2 := first.store.(objects := first.store.objects[ResultsKey(jobId) := Doc(outcome.body.value)]);
        assert ReadJson(st2, key) == ReadJson(first.store, key);
        StatusUpdateRecord(st2, jobId, "completed", Some(outcome.body.value), finished);
      } else {
        StatusUpdateRecord(first.store, jobId, "failed", Some(ErrorDetail("")), finished);
      }
    }
  }

  /** No claim step: two runs over the same scan snapshot, one after the other, both
      take the job and both report success, so one job is counted twice. */
  lemma ProcessedTwice(st: Store, jobId: string, metadata: Json, outcome: BackendOutcome,
                       t1: DateTime, t2: DateTime, t3: DateTime, t4: DateTime)
    requires RecordWritable(st, jobId) && GetObject(st, ImagesKey(jobId)).Found?
    requires ResultsKey(jobId) !in st.writeFaults && Succeeded(outcome)
    requires Has(metadata, "bus_number") && Has(metadata, "total_images") && Has(metadata, "latlong")
    ensures var u1 := ProcessOutcome(st, jobId, metadata, outcome, t1, t2);
            var u2 := ProcessOutcome(u1.store, jobId, metadata, outcome, t3, t4);
            u1.ok && u2.ok && StatusWritten(u2.writes[0]) == Some("processing") &&
            StoredStatus(u2.store, jobId) == Some("completed")
  {
    KeyLayout(jobId, jobId);
    var u1 := ProcessOutcome(st, jobId, metadata, outcome, t1, t2);
    ProcessVerdict(st, jobId, metadata, outcome, t1, t2);
    ProcessFinalStatus(st, jobId, metadata, outcome, t1, t2);
    ProcessFrame(st, jobId, metadata, outcome, t1, t2);
    assert AgreeOn(st, u1.store, ImagesKey(jobId));
    ProcessVerdict(u1.store, jobId, metadata, outcome, t3, t4);
    ProcessFinalStatus(u1.store, jobId, metadata, outcome, t3, t4);
  }

  // ---- the consumer process ----

  /** The job ids of `jobs`, in order. */
  function JobIds(jobs: seq<PendingJob>): (ids: seq<string>)
    ensures |ids| == |jobs|
  {
    seq(|jobs|, i requires 0 <= i < |jobs| => jobs[i].jobId)
  }

  /** How many jobs a round starts when the stop signal arrives before job `signalBefore`. */
  function Started(signalBefore: nat, found: nat): nat {
    if signalBefore < found then signalBefore else found
  }

  /** What the environment does during one round of the main loop: the listing the scan
      sees, the backend's answer to the k-th job, the clock readings (2k and 2k+1 for the
      k-th job) and the position of the job before whose check the stop signal arrives. */
  datatype RoundEnv = RoundEnv(listing: Listing, backend: nat -> BackendOutcome,
                               clock: nat -> DateTime, signalBefore: nat)

  /** The consumer's module state: its store client, the `stats` counters and the
      `shutdown` flag. */
  class Process {
    const client: Client
    var processed: nat
    var failed: nat
    var shutdown: bool

    constructor (c: Client)
      ensures client == c && processed == 0 && failed == 0 && !shutdown
    {
      client := c;
      processed, failed := 0, 0;
      shutdown := false;
    }

    /** `signal_handler`: raise the stop flag (the exit it then requests is not modelled). */
    method SignalHandler()
      modifies this`shutdown
      ensures shutdown
    {
      shutdown := true;
    }

    /** `get_pending_jobs()`. */
    method GetPendingJobs(l: Listing) returns (jobs: seq<PendingJob>)
      ensures jobs == PendingJobs(client.store, l)
    {
      jobs := [];
      var i := 0;
      while i < |l.entries|
        invariant 0 <= i <= |l.entries|
        invariant jobs == PendingAmong(client.store, l.entries[..i])
      {
        var e := l.entries[i];
        assert l.entries[..i + 1][..i] == l.entries[..i];
        if e.isDir {
          var jobId := RStrip(e.name, '/');
          var r := client.GetJson(MetadataKey(jobId));
          if r.Found? && r.value.Obj? && Get(r.value.fields, "status") == Str("pending") {
            jobs := jobs + [PendingJob(jobId, r.value)];
          }
        }
        i := i + 1;
      }
      assert l.entries[..i] == l.entries;
      if l.fails {
        // the listing raised while it was being iterated
        jobs := [];
      }
    }

    /** `update_job_status(job_id, status, results)`. */
    method UpdateJobStatus(jobId: string, status: string, results: Option<Json>, now: DateTime)
      returns (ok: bool)
      modifies client
      ensures var u := StatusUpdate(old(client.store), jobId, status, results, now);
              ok == u.ok && client.store == u.store && client.log == old(client.log) + u.writes
    {
      var key := MetadataKey(jobId);
      var r := client.GetJson(key);
      if r.Failed? || !r.value.Obj? {
        return false;
      }
      var fields := r.value.fields;
      fields := fields["status" := Str(status)];
      fields := fields["updated_at" := Str(IsoFormat(now))];
      // `results` is not added to the record
      ok := client.PutObject(key, Doc(Obj(fields)));
    }

    /** An exception handler of `process_job`. */
    method FailJob(jobId: string, message: string, finished: DateTime) returns (ok: bool)
      modifies this`failed, client
      ensures var u := StatusUpdate(old(client.store), jobId, "failed", Some(ErrorDetail(message)), finished);
              client.store == u.store && client.log == old(client.log) + u.writes
      ensures failed == old(failed) + 1 && !ok
    {
      var _ := UpdateJobStatus(jobId, "failed", Some(ErrorDetail(message)), finished);
      failed := failed + 1;
      ok := false;
    }

    /** The success path of `process_job`: store `results.json`, then mark the job
        completed. */
    method StoreResults(jobId: string, result: Json, finished: DateTime) returns (ok: bool)
      modifies this`processed, this`failed, client
      ensures var u := Complete(old(client.store), jobId, result, finished);
              ok == u.ok && client.store == u.store && client.log == old(client.log) + u.writes
      ensures ok ==> processed == old(processed) + 1 && failed == old(failed)
      ensures !ok ==> processed == old(processed) && failed == old(failed) + 1
    {
      var stored := client.PutObject(ResultsKey(jobId), Doc(result));
      if !stored {
        ok := FailJob(jobId, "results upload failed", finished);
      } else {
        var _ := UpdateJobStatus(jobId, "completed", Some(result), finished);
        processed := processed + 1;
        ok := true;
      }
    }

    /** `process_job` once the job was marked processing: download the archive, read
        the location and call the backend. */
    method ProcessClaimed(jobId: string, metadata: Json, outcome: BackendOutcome,
                          finished: DateTime) returns (ok: bool)
      modifies this`processed, this`failed, client
      ensures var u := AfterClaim(old(client.store), jobId, metadata, outcome, finished);
              ok == u.ok && client.store == u.store && client.log == old(client.log) + u.writes
      ensures ok ==> processed == old(processed) + 1 && failed == old(failed)
      ensures !ok ==> processed == old(processed) && failed == old(failed) + 1
    {
      var archive := client.Download(ImagesKey(jobId));
      if archive.Failed? {
        ok := FailJob(jobId, "download failed", finished);
        return;
      }
      if !Has(metadata, "latlong") {
        ok := FailJob(jobId, "KeyError", finished);
        return;
      }
      match outcome {
        case Timeout =>
          ok := FailJob(jobId, "Timeout", finished);
        case Failure(message) =>
          ok := FailJob(jobId, message, finished);
        case Http(code, text, body) =>
          if code != 200 {
            ok := FailJob(jobId, text, finished);
          } else if body.None? || !body.value.Obj? {
            ok := FailJob(jobId, "response is not a JSON object", finished);
          } else {
            ok := StoreResults(jobId, body.value, finished);
          }
      }
    }

    /** `process_job(job_id, metadata)`: exactly one of the two counters goes up by one,
        and `processed` does exactly when the call reports success. */
    method ProcessJob(jobId: string, metadata: Json, outcome: BackendOutcome,
                      started: DateTime, finished: DateTime) returns (ok: bool)
      modifies this`processed, this`failed, client
      ensures var u := ProcessOutcome(old(client.store), jobId, metadata, outcome, started, finished);
              ok == u.ok && client.store == u.store && client.log == old(client.log) + u.writes
      ensures ok ==> processed == old(processed) + 1 && failed == old(failed)
      ensures !ok ==> processed == old(processed) && failed == old(failed) + 1
    {
      ghost var st0, log0 := client.store, client.log;
      if !Has(metadata, "bus_number") || !Has(metadata, "total_images") {
        ok := FailJob(jobId, "KeyError", finished);
        return;
      }
      var _ := UpdateJobStatus(jobId, "processing", None, started);
      ghost var first := StatusUpdate(st0, jobId, "processing", None, started);
      ok := ProcessClaimed(jobId, metadata, outcome, finished);
      ghost var rest := AfterClaim(first.store, jobId, metadata, outcome, finished);
      assert log0 + first.writes + rest.writes == log0 + (first.writes + rest.writes);
    }

    /** `process_job` as the main loop calls it, with its result dropped: one of the
        two counters goes up by one. */
    method StartJob(job: PendingJob, outcome: BackendOutcome, started: DateTime, finished: DateTime)
      modifies this`processed, this`failed, client
      ensures processed + failed == old(processed) + old(failed) + 1
      ensures processed >= old(processed) && failed >= old(failed)
    {
      var _ := ProcessJob(job.jobId, job.metadata, outcome, started, finished);
    }

    /** One pass of the main loop: scan; with no pending job, sleep; otherwise process the
        jobs in scan order, checking the stop flag before each one. */
    method PollRound(env: RoundEnv) returns (slept: bool, started: seq<string>)
      requires !shutdown
      modifies this`processed, this`failed, this`shutdown, client
      ensures var jobs := PendingJobs(old(client.store), env.listing);
        (slept <==> jobs == []) &&
        started == JobIds(jobs[..Started(env.signalBefore, |jobs|)]) &&
        (shutdown <==> env.signalBefore < |jobs|)
      ensures processed + failed == old(processed) + old(failed) + |started|
      ensures processed >= old(processed) && failed >= old(failed)
    {
      var jobs := GetPendingJobs(env.listing);
      started := [];
      if jobs == [] {
        // time.sleep(POLL_INTERVAL)
        slept := true;
        return;
      }
      slept := false;
      var k := 0;
      while k < |jobs|
        invariant 0 <= k <= |jobs| && k <= env.signalBefore
        invariant started == JobIds(jobs[..k])
        invariant !shutdown
        invariant processed + failed == old(processed) + old(failed) + k
        invariant processed >= old(processed) && failed >= old(failed)
      {
        if k == env.signalBefore {
          SignalHandler();
        }
        if shutdown {
          break;
        }
        StartJob(jobs[k], env.backend(k), env.clock(2 * k), env.clock(2 * k + 1));
        assert JobIds(jobs[..k + 1]) == JobIds(jobs[..k]) + [jobs[k].jobId];
        started := started + [jobs[k].jobId];
        k := k + 1;
      }
    }

    /** `main()`'s `while not shutdown` loop over the rounds the environment provides:
        it starts no round once the flag is up, and it stops early only because of it. */
    method Run(rounds: seq<RoundEnv>) returns (ran: nat)
      modifies this`processed, this`failed, this`shutdown, client
      ensures ran <= |rounds|
      ensures old(shutdown) ==> ran == 0 && shutdown
      ensures ran < |rounds| ==> shutdown
      ensures processed >= old(processed) && failed >= old(failed)
    {
      ran := 0;
      while !shutdown && ran < |rounds|
        invariant ran <= |rounds|
        invariant old(shutdown) ==> shutdown && ran == 0
        invariant processed >= old(processed) && failed >= old(failed)
      {
        var slept, started := PollRound(rounds[ran]);
        ran := ran + 1;
      }
    }
  }
}
