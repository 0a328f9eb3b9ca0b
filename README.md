# Bus-alert job lifecycle, modelled in Dafny

The bus-alert system keeps every job in one object-store bucket. Each job is a folder named
after its id, and it holds up to four objects:
- `images.zip`, the uploaded archive;
- `metadata.json`, the job record, which holds the job's status;
- `upload_log.json`, written at upload time;
- `results.json`, the inference backend's answer.

Four programs share that bucket:

- **the upload service** (`POST /upload`, `GET /stats`). It validates an uploaded archive and
  names the job after the bus and the second the upload arrived. It then stores the archive,
  a `pending` record and the upload log, in that order.
- **the consumer**. It scans the bucket's folders for `pending` records and marks each job
  `processing`. It sends the archive to the backend, stores the answer in `results.json`, and
  marks the record `completed` or `failed`. It keeps two counters (`processed`, `failed`) and
  a shutdown flag set by its signal handler.
- **the results service** (`GET /jobs`, `GET /jobs/{id}`, `GET /jobs/{id}/results`,
  `GET /stats`). It reads the records back: a filtered job list sorted newest first and
  cut to a limit, one job, one job's results, and counts per status.
- **the worker monitor**. It reads the worker heartbeats under `workers/` and the GPU locks
  under `gpu_locks/`. It shows one row per worker, with a freshness marker and a GPU marker.

Modules:
- `Bucket` is the bucket. It is a map from keys to objects, plus the keys whose reads or
  writes fail. The `Client` class is the store client the services use; its ghost `log`
  records every successful put.
- `JsonDoc`, `Text` and `Clock` write out the Python semantics the services rely on:
  truthiness, `dict.get`, `rstrip`, `split`/`replace`, `lower`, `strftime`, `isoformat` and
  string order.
- `Consumer`, `UploadApi`, `ResultsApi` and `Monitor` follow the four programs.
- `Lifecycle` proves what the services do together.

Each program is written in the form it has in the source:
- The consumer is a class with its counters and flag. Its methods update the counters and
  the bucket, and each method is proved against a function that states its effect.
- The services' request handlers are functions. Their loops are methods proved equal to
  those functions.

Three consequences of the design are proved:
- The consumer deliberately never copies results into a job record, and the results service
  reads the match count and the alert flag only from the record. So in every bucket these
  services build, `GET /jobs?alert_only=true` is empty and `total_alerts` is 0
  (`Lifecycle.AlertOnlyEmpty`).
- The consumer has no claim step. Two runs over the same scan snapshot both process the same
  job and both count it (`Consumer.ProcessedTwice`).
- The monitor removes every ".lock" from a lock's key, not just the suffix
  (`Monitor.LockIdRemovesEveryLock`).

## Model

| member | source | states |
|---|---|---|
| Bucket.GetObject | consumer.py:137-141 | `get_object`/`fget_object`: a store error other than a missing key, the missing-key error, or the stored object. |
| Bucket.ReadJson | consumer.py:92-93 | `get_object` followed by `json.loads`: the decoded document, or why it failed (missing key, other store error, not JSON). |
| Bucket.Put | consumer.py:107-113 | `put_object`: a refused write raises and changes nothing; otherwise the key holds the new object. |
| Bucket.Folders | upload_api.py:219 | The number of folder entries in a listing. |
| Bucket.FolderId | consumer.py:66 | A folder's job id: its name with trailing '/' removed (`rstrip('/')`). |
| Bucket.MetadataKey | consumer.py:91 | A job's record key, `<job_id>/metadata.json`. |
| Bucket.ImagesKey | upload_api.py:146 | A job's archive key, `<job_id>/images.zip`. |
| Bucket.ResultsKey | consumer.py:194 | A job's results key, `<job_id>/results.json`. |
| Bucket.UploadLogKey | upload_api.py:180 | A job's upload log key, `<job_id>/upload_log.json`. |
| Bucket.KeyLayout | upload_api.py:146-184 | Of a job's keys only the record key ends in "/metadata.json". Distinct jobs have distinct record keys and distinct results keys. The archive, record, results and log keys of one job are pairwise different. |
| Bucket.Client.constructor | consumer.py:45-50 | The client starts on the given bucket with an empty write log. |
| Bucket.Client.PutObject | consumer.py:107-113 | A refused write raises and leaves the bucket as it was. A write that is accepted replaces exactly the one key and is appended to the log. |
| Bucket.ReadAfterPut | consumer.py:92-113 | An accepted put reads back as the object put, and as the decoded document when it is one, unless reads of that key fail. A put changes the read of no other key. |
| JsonDoc.Truthy | results_api.py:136 | Python truthiness of a JSON value: null, false, 0, 0.0, "", [] and {} are false. |
| JsonDoc.GetOr | results_api.py:265 | `d.get(key, default)`. |
| JsonDoc.Get | results_api.py:130 | `d.get(key)`: the value, or null when the key is absent. |
| JsonDoc.Has | consumer.py:127-128 | `metadata[key]` does not raise: the value is a dict holding the key. |
| Http.ServerError | results_api.py:170 | The 500 answer of a handler that raised something it did not expect. |
| Text.StartsWith | monitor_workers.py:31 | `s.startswith(prefix)`: the keys a prefixed listing returns. |
| Text.EndsWith | upload_api.py:124 | `s.endswith(suffix)`. |
| Text.LowerChar | upload_api.py:98 | ASCII lower-casing of one character. |
| Text.EndsWithNoCase | upload_api.py:98 | `s.lower().endswith(suffix)` for a lower-case suffix. |
| Text.LexLess | results_api.py:158 | Python's `<` on str: lexicographic order by code point, a proper prefix first. |
| Text.RStrip | consumer.py:66 | `rstrip('/')` gives the longest prefix that does not end in '/': what it drops is all '/'. |
| Text.RStripAppended | consumer.py:66 | A name that does not end in '/' is recovered from that name followed by '/'. |
| Text.AfterLast | monitor_workers.py:50 | `split('/')[-1]` holds no '/', is a suffix of the key, and is preceded by a '/' when shorter than the key. |
| Text.AfterLastOf | monitor_workers.py:50 | For a prefix, '/' and a segment without '/', splitting gives back that segment. |
| Text.RemoveAll | monitor_workers.py:50 | `replace('.lock', '')` never lengthens the string. |
| Text.RemoveLockSuffix | monitor_workers.py:50 | Removing ".lock" from an id followed by ".lock" gives the id back, provided the id holds no ".lock" of its own. |
| Text.Lower | upload_api.py:98 | The ASCII model of `lower()` keeps the length. |
| Text.LowerSuffix | upload_api.py:98 | Lower-casing and then taking a suffix is the same as taking the suffix and then lower-casing it. |
| Text.Fixed | upload_api.py:103 | A zero-padded field of `strftime` has exactly the width asked for, and every character is a digit. |
| Text.FixedValue | upload_api.py:103 | Reading a padded field back gives the number written into it. |
| Text.FixedInjective | upload_api.py:103 | Two numbers in range have the same padded field only when they are equal. |
| Text.LexLessIrreflexive | results_api.py:158 | No timestamp string sorts before itself. |
| Text.LexLessTransitive | results_api.py:158 | String order is transitive. |
| Text.LexLessTotal | results_api.py:158 | Any two strings are equal or ordered one way or the other. |
| Text.LexLessAsymmetric | results_api.py:158 | String order is asymmetric. |
| Clock.Valid | upload_api.py:102 | The field ranges a `datetime` holds. |
| Clock.Stamp | upload_api.py:103 | `strftime('%Y%m%d_%H%M%S')`: zero-padded fields with '_' between date and time. |
| Clock.IsoFormat | upload_api.py:133 | `isoformat()`: date 'T' time, with the six-digit fraction only when the microseconds are not 0. |
| Clock.StampExact | upload_api.py:103 | `strftime('%Y%m%d_%H%M%S')` is 15 characters with '_' at position 8. Two instants have the same stamp iff they fall in the same second. |
| Consumer.IsPending | consumer.py:77 | A record the scan picks: a dict whose "status" is "pending". |
| Consumer.PendingAmong | consumer.py:64-80 | The scan's loop over the listing entries, in order. |
| Consumer.PendingEntry | consumer.py:64-80 | One listing entry in the scan: a folder whose record reads back as a dict with status "pending" gives that job and its record. Anything else, including a read or decode error, is skipped. |
| Consumer.PendingJobs | consumer.py:58-85 | `get_pending_jobs`: the scan over the listing in order. A listing that raises gives []. |
| Consumer.ErrorDetail | consumer.py:213 | The `{'error': ...}` value a failure path hands to `update_job_status`. |
| Consumer.Succeeded | consumer.py:182-187 | The backend answered 200 with a JSON object. |
| Consumer.Fail | consumer.py:213-231 | The failure path: the record gets status "failed" through `update_job_status`, and the call reports False. |
| Consumer.Complete | consumer.py:182-208 | The success path: put `results.json`, then mark the record "completed" and report True. A refused `results.json` put raises and takes the failure path. |
| Consumer.AfterClaim | consumer.py:133-231 | The part of `process_job` after the "processing" update: the failure path with the first error met, or the success path. |
| Consumer.ProcessOutcome | consumer.py:119-231 | `process_job`: reading "bus_number" or "total_images" from the snapshot fails before any write; otherwise the "processing" update, then the rest. |
| Consumer.PendingAmongConcat | consumer.py:64-80 | The scan keeps listing order: scanning two runs of entries gives the jobs of the first run, then those of the second. |
| Consumer.PendingAmongMembers | consumer.py:64-80 | A job is collected iff some listing entry yields it. |
| Consumer.PendingJobsExact | consumer.py:58-85 | A listing that raises yields no jobs. Otherwise the scan returns exactly the folders whose record reads back as a dict with status "pending", each paired with the record as read. The job id is the folder name less its trailing '/'. |
| Consumer.StatusUpdate | consumer.py:87-117 | An update succeeds iff the record reads back as a dict and the write is accepted. Then it is one put to the record's key and nothing else changes; a failed update leaves the bucket as it was. |
| Consumer.StatusUpdateRecord | consumer.py:92-114 | After a successful update the record is the one read, with only "status" and "updated_at" set. Every other field is kept, none is added, and the record can be written again. No check is made of the status being replaced. |
| Consumer.StatusUpdateIgnoresResults | consumer.py:100-101 | The `results` argument makes no difference to the update. |
| Consumer.FailIgnoresMessage | consumer.py:213-229 | The error detail handed to a failure path does not change what it does. |
| Consumer.ClaimFailure | consumer.py:133-229 | After the claim, no error is recorded iff the archive downloads, the snapshot has "latlong" and the backend answers 200 with a JSON object. |
| Consumer.ProcessStages | consumer.py:119-231 | After the "processing" update there are two cases. If the archive downloads, the snapshot has "latlong" and the backend answers 200 with a JSON object, the call takes the success path. Otherwise it takes the failure path. |
| Consumer.AfterClaimWrites | consumer.py:133-231 | After the claim, success holds iff the archive downloads, "latlong" is present, the backend answers 200 with a JSON object and `results.json` can be written. Success writes the answer first and then "completed"; failure writes only "failed" records. No other key changes. |
| Consumer.StatusUpdateWrites | consumer.py:87-117 | Every put of an update goes to the record and writes the requested status. |
| Consumer.CompleteWrites | consumer.py:189-201 | The success path succeeds iff `results.json` can be written. It writes the answer and then a "completed" record; a refused write leads to "failed". |
| Consumer.CompleteStored | consumer.py:189-208 | When `results.json` may be written, the success path succeeds. It writes the answer first, then at most one "completed" record, and changes no key besides those two. |
| Consumer.ProcessFrame | consumer.py:119-231 | `process_job` changes only the job's record and its `results.json`. |
| Consumer.ProcessVerdict | consumer.py:119-231 | `process_job` returns True iff the snapshot has "bus_number", "total_images" and "latlong", the archive downloads, the backend answers 200 with a JSON object, and `results.json` can be written. |
| Consumer.ProcessResults | consumer.py:182-231 | On success `results.json` holds the backend's answer. On failure only the record is written. |
| Consumer.ProcessStatusOrder | consumer.py:131-229 | A record write is either the first put, "processing", or the final status: "completed" on success, "failed" otherwise. "completed" is written only on success, and directly after `results.json`. |
| Consumer.UnclaimedStatusOrder | consumer.py:119-229 | A snapshot that lacks "bus_number" or "total_images" leads to failure, and only "failed" is written to the record. |
| Consumer.ClaimedStatusOrder | consumer.py:131-229 | Once the snapshot's fields are read, the record gets "processing" first and then only the final status, and "completed" follows the `results.json` put directly. |
| Consumer.ProcessFinalStatus | consumer.py:119-231 | With a readable, writable record, the record ends "completed" when the call returns True and "failed" otherwise, with its other fields kept. When the snapshot has the fields read first, the first put marks it "processing" whatever status it had. |
| Consumer.ProcessedTwice | consumer.py:279-291 | Two runs over the same snapshot, one after the other, both take the job, both succeed, and both mark it "processing" first: there is no claim step. |
| Consumer.JobIds | consumer.py:288 | One id per job: the list has as many ids as there are jobs. |
| Consumer.Started | consumer.py:288-291 | The jobs a round starts: those before the one at which the stop flag is found up. |
| Consumer.Process.constructor | consumer.py:33-39 | The counters start at 0 and the shutdown flag is down. |
| Consumer.Process.SignalHandler | consumer.py:252-258 | The handler raises the shutdown flag. |
| Consumer.Process.GetPendingJobs | consumer.py:58-85 | The scanning loop returns exactly the jobs the scan specification gives. |
| Consumer.Process.UpdateJobStatus | consumer.py:87-117 | The read-modify-write has exactly the effect and result of `StatusUpdate`, and the log grows by its puts. |
| Consumer.Process.FailJob | consumer.py:218-231 | A failure path marks the job failed, counts one more failure, and returns False. |
| Consumer.Process.StoreResults | consumer.py:189-208 | Storing the results has the effect of the success path. `processed` goes up on success, and `failed` goes up when the results write is refused. |
| Consumer.Process.ProcessClaimed | consumer.py:133-231 | The steps after the claim have the effect of their specification. Exactly one counter goes up. |
| Consumer.Process.ProcessJob | consumer.py:119-231 | `process_job` has exactly the effect and result of `ProcessOutcome`. Exactly one of the two counters goes up by one, and `processed` does iff it returns True. |
| Consumer.Process.StartJob | consumer.py:291 | A job started by the main loop adds one to exactly one counter. |
| Consumer.Process.PollRound | consumer.py:279-298 | A round sleeps iff the scan finds no job. Otherwise it starts the scanned jobs in order until the shutdown flag is up, and the flag is up iff the signal came before the last job. The counters grow by the number of jobs started. |
| Consumer.Process.Run | consumer.py:279 | The main loop starts no round once the flag is up and stops early only because of it. The counters never decrease. |
| UploadApi.IsImage | upload_api.py:123-124 | A member counts as an image when its lower-cased name ends in .jpg, .jpeg, .png or .bmp. |
| UploadApi.ImageCount | upload_api.py:123-124 | The number of image members of the archive. |
| UploadApi.OptionalStr | upload_api.py:137-141 | An optional form field as JSON: absent becomes null. |
| UploadApi.DeviceInfo | upload_api.py:137-141 | `device_info`: the three device fields when a non-empty device id was sent, else null. |
| UploadApi.SizeMb | upload_api.py:112 | The archive size in MiB, before rounding. |
| UploadApi.UploadLog | upload_api.py:169-175 | The upload log stored beside the record. |
| UploadApi.Applied | upload_api.py:145-184 | The objects after a sequence of puts, one after the other. |
| UploadApi.PutInOrder | upload_api.py:145-184 | The puts made one after the other. The first refused put raises, and the puts before it stay. |
| UploadApi.UploadWrites | upload_api.py:145-184 | The three puts of an upload: the archive, the record, then the log. |
| UploadApi.Rejection | upload_api.py:96-126 | The refusals before any put, in order: no file name gives 500, a name not ending in ".zip" 400, an empty body 400, and an unreadable archive 400. |
| UploadApi.JobId | upload_api.py:102-103 | The job id is `job_<bus>_<YYYYmmdd_HHMMSS>` of the upload time. |
| UploadApi.InitialMetadata | upload_api.py:129-146 | The record an upload stores: status "pending", no results, and the request's fields. |
| UploadApi.UploadOutcome | upload_api.py:77-211 | `upload`: a refusal, or the archive, record and log put in that order. The first refused put answers 500; otherwise the answer is the "queued" receipt. |
| UploadApi.JobIdCollision | upload_api.py:102-103 | Two uploads get the same job id iff they name the same bus within the same second. |
| UploadApi.ImageCountConcat | upload_api.py:123-124 | The image counts of two runs of members add up. |
| UploadApi.ImageCountAll | upload_api.py:123-124 | The image count never exceeds the number of members, and equals it iff every member has an image extension, in any case. |
| UploadApi.InitialMetadataShape | upload_api.py:129-143 | A new record is "pending" and holds no results. It carries the job id, bus, location and image count, and `timestamp` equals `uploaded_at`. It has device details iff a non-empty device id was sent. |
| UploadApi.PutInOrderSpec | upload_api.py:145-184 | The puts made are a prefix of those asked for, and all of them iff no key is refused. A stopped run stops at the first refused key. The bucket then holds exactly what was put. |
| UploadApi.UploadRejected | upload_api.py:96-126 | A rejected upload stores nothing. It answers 500 iff no file name was sent, and 400 iff the name does not end in ".zip" (any case), the body is empty, or the archive cannot be read. |
| UploadApi.ThreePuts | upload_api.py:145-184 | Three puts in a row all succeed iff none of their keys is refused. The bucket then holds the three objects. |
| UploadApi.UploadStored | upload_api.py:145-205 | An accepted upload puts the archive, the record and the log, in that order. It succeeds iff none of the three writes is refused. A refused put answers 500 and leaves the earlier puts in place. |
| UploadApi.UploadQueued | upload_api.py:128-199 | A successful upload answers "queued" with the job id and image count. The bucket then holds the archive, the pending record and the log, and the record reads back as written. |
| UploadApi.Upload | upload_api.py:77-211 | The handler's answer, new bucket and puts are exactly those its specification gives. |
| UploadApi.UploadStatsReply | upload_api.py:213-227 | The upload service's `GET /stats` answers iff the listing does not raise, and 500 otherwise. |
| ResultsApi.HasStr | results_api.py:40-47 | A string field as the pydantic model requires it. |
| ResultsApi.HasInt | results_api.py:40-47 | An integer field as the pydantic model requires it. |
| ResultsApi.RequiredFields | results_api.py:142-148 | The five fields a summary reads, with their types. |
| ResultsApi.FilterOn | results_api.py:130 | The status filter is on: `if status` holds. |
| ResultsApi.ResultsOf | results_api.py:135 | `metadata.get('results', {})`. |
| ResultsApi.AlertRaised | results_api.py:134-137 | The alert filter passes: `results` is a dict whose "alert" is truthy. |
| ResultsApi.Summarize | results_api.py:129-151 | The summary of one record, or None when the status filter or the alert filter drops it, or when building the summary raises. |
| ResultsApi.SummaryOf | results_api.py:117-151 | One listing entry in `list_jobs`: a folder whose record reads back gives its summary. Anything else, or a read that raises, is skipped. |
| ResultsApi.Summaries | results_api.py:116-153 | The summaries collected over the listing, in listing order. |
| ResultsApi.Insert | results_api.py:158 | One step of the stable sort by timestamp in reverse order: the job goes after every job at least as new as it. |
| ResultsApi.NewestFirst | results_api.py:158 | `jobs.sort(key=timestamp, reverse=True)` as an insertion sort. |
| ResultsApi.Head | results_api.py:161 | `jobs[:limit]`, negative `limit` included. |
| ResultsApi.ListJobsReply | results_api.py:97-170 | `GET /jobs`: 500 when the listing raises. Otherwise the filtered summaries, newest first, cut to `limit`, with their count. |
| ResultsApi.Detail | results_api.py:184-196 | The job detail built from a record. None when the record is not a dict, a required field is missing or has the wrong type, or `results` is neither null nor a dict. |
| ResultsApi.Tally | results_api.py:253-279 | One listing entry in `get_stats`: a folder counts in `total_jobs` and in its status's counter. A completed job with a truthy `results.alert` counts as an alert. |
| ResultsApi.StatsAmong | results_api.py:253-279 | The counters over the listing, one entry after the other. |
| ResultsApi.StatsReply | results_api.py:237-296 | `GET /stats`: 500 when the listing raises, otherwise the counters over the listing. |
| ResultsApi.AlertRate | results_api.py:292 | `alert_rate` before rounding: alerts per completed job in percent, and 0 without completed jobs. |
| ResultsApi.SliceLength | results_api.py:161 | `[:limit]` never keeps more items than there are. |
| ResultsApi.ListJobs | results_api.py:97-170 | The listing loop, sort and cut give exactly the page the specification gives. |
| ResultsApi.StatusFilterExact | results_api.py:129-130 | The status filter keeps a summary iff its status is the one asked for, or the filter is empty. |
| ResultsApi.AlertFilterExact | results_api.py:132-136 | The alert filter keeps exactly the summaries whose alert is true. |
| ResultsApi.SummaryFields | results_api.py:139-151 | A summary carries its job id and the record's typed fields. Without results it has no match count and no alert. |
| ResultsApi.FreshRecordListed | results_api.py:139-151 | A record with the five required fields and no results is listed when no filter is on. |
| ResultsApi.SummariesConcat | results_api.py:117-155 | Summaries keep listing order across two runs of entries. |
| ResultsApi.SummariesMembers | results_api.py:117-155 | A summary is collected iff some listing entry yields it. |
| ResultsApi.InsertPermutes | results_api.py:158 | Inserting keeps every job and adds the new one once. |
| ResultsApi.InsertOrdered | results_api.py:158 | Inserting into a newest-first list keeps it newest first. |
| ResultsApi.InsertLast | results_api.py:158 | A job no newer than any in the list goes last. |
| ResultsApi.NewestFirstSorts | results_api.py:158 | The sort returns a permutation of its input, newest first. |
| ResultsApi.NewestFirstStable | results_api.py:158 | A list already newest first, ties included, comes back unchanged. |
| ResultsApi.InsertTied | results_api.py:158 | Inserting into a newest-first list puts the job after every job with its timestamp, and keeps each timestamp's jobs in order. |
| ResultsApi.NewestFirstKeepsTies | results_api.py:158 | The sort is stable: for every timestamp, the jobs carrying it come out in listing order. |
| ResultsApi.OrderedPrefix | results_api.py:158-161 | A prefix of a newest-first list is newest first, and nothing after it is newer than anything in it. |
| ResultsApi.SortedHead | results_api.py:158-161 | The cut page has the Python slice's length, is newest first, holds jobs of the input only, and no job left out is newer than a job kept. |
| ResultsApi.CollectedFromFolders | results_api.py:117-151 | Every collected summary passes both filters and comes from a listed folder. |
| ResultsApi.ListJobsPage | results_api.py:97-170 | `GET /jobs` answers 500 iff the listing raises. Otherwise the page is newest first, `total` is its length, and it is cut as `[:limit]` cuts, negative limits included. No job left out is newer than one shown, and every shown job passes the filters and comes from a listed folder. |
| ResultsApi.GetJobReply | results_api.py:172-203 | `GET /jobs/{id}` answers 404 iff the record is missing, and 500 on any other failure. Otherwise it returns the record's id, status and timestamp, and results iff the record has them. |
| ResultsApi.GetResultsReply | results_api.py:205-235 | `GET /jobs/{id}/results` returns exactly the stored document iff it reads back as JSON. It answers 404 iff the object is missing, and 500 otherwise. |
| ResultsApi.ListedJobHasDetail | results_api.py:139-195 | A job listed unfiltered whose results are null or a dict is also returned by `GET /jobs/{id}`, with the same fields. |
| ResultsApi.ResultsWithoutRecord | results_api.py:172-235 | The two endpoints are independent: results can be served for a job whose record is missing. |
| ResultsApi.GetStats | results_api.py:237-296 | The counting loop gives exactly the counters the specification gives, and 500 when the listing raises. |
| ResultsApi.StatsBounds | results_api.py:253-282 | `total_jobs` counts every folder. The four status counts together never exceed it, and alerts are counted among completed jobs only. |
| ResultsApi.Percent | results_api.py:292 | A share of completed jobs is between 0 and 100 percent. |
| ResultsApi.AlertRateBounds | results_api.py:292 | `alert_rate` is 0 with no completed job, and a percentage otherwise. |
| ResultsApi.ListWithinStats | results_api.py:97-296 | Listing by a status shows no more jobs than `GET /stats` counts for it. The alert list of completed jobs (status filter "completed" with `alert_only`) is no longer than `total_alerts`, and the full list no longer than `total_jobs`. |
| Monitor.WorkersAmong | monitor_workers.py:28-43 | `get_workers`: the records of the listed keys that read back as JSON, in listing order. A key whose read fails is skipped. |
| Monitor.LockId | monitor_workers.py:50 | The lock id of a key: its last '/'-separated segment with every ".lock" removed. |
| Monitor.WholeSeconds | monitor_workers.py:84 | `int(delta)`: seconds truncated toward zero. |
| Monitor.Fresh | monitor_workers.py:78 | A worker seen less than 30 s ago is "[OK]", otherwise "[STALE]". |
| Monitor.RowOf | monitor_workers.py:74-84 | The row shown for one worker record, or None when formatting it raises. |
| Monitor.Rows | monitor_workers.py:74-84 | The rows of one refresh, one per worker record, each at its own instant. None when any row raises. |
| Monitor.GetWorkers | monitor_workers.py:28-43 | The loop returns the records read from the listed keys, in order, skipping unreadable ones and keeping those read before a listing failure. |
| Monitor.WorkersMembers | monitor_workers.py:28-43 | A record is returned iff some listed key reads back as it. |
| Monitor.WorkersFrame | monitor_workers.py:31-38 | The scan reads only listed keys: buckets that agree under `workers/` give the same workers. |
| Monitor.LocksMembers | monitor_workers.py:45-53 | An id is among the parsed lock ids iff some listed key parses to it. |
| Monitor.GetGpuLocks | monitor_workers.py:45-53 | The loop returns exactly the parsed ids of the listed keys. |
| Monitor.LockIdRoundTrip | monitor_workers.py:50 | A worker's lock key parses back to its id when the id holds no '/' and no ".lock". |
| Monitor.LockIdRemovesEveryLock | monitor_workers.py:50 | A worker named "a.lock" has its lock parsed as "a": every ".lock" is removed. |
| Monitor.FreshAgrees | monitor_workers.py:76-85 | The OK marker and the seconds shown agree: a worker is fresh iff its shown age is under 30 s. 29.999999 s is fresh and 30 s is stale. |
| Monitor.RowShows | monitor_workers.py:74-85 | A row is fresh iff the record is under 30 s old. The id is cut to 37 characters, and status "IDLE" and job "N/A" are the defaults. The GPU marker shows iff the id is among the lock ids. |
| Monitor.GpuMarker | monitor_workers.py:45-83 | A worker gets the GPU marker iff some listed lock key parses to its id, in particular when its own lock key is listed. |
| Monitor.RowsPerWorker | monitor_workers.py:74-85 | A refresh shows one row per worker, in order, or raises iff some row raises. |
| Lifecycle.Clean | consumer.py:100-101 | An object is clean unless it is a job record (a dict under a "/metadata.json" key) holding "results". |
| Lifecycle.Step | consumer.py:87-231 | The bucket after one upload, one `process_job` run or one `update_job_status` call. |
| Lifecycle.NoResultsInRecords | consumer.py:100-101 | The design invariant: no job record holds a "results" field. |
| Lifecycle.Replay | consumer.py:87-231 | The bucket after a sequence of uploads, `process_job` runs and `update_job_status` calls, applied in order. |
| Lifecycle.PutClean | consumer.py:189-198 | Putting an object that is not a record with results keeps every record free of results. |
| Lifecycle.StatusUpdateClean | consumer.py:87-117 | `update_job_status` never adds results to a record. |
| Lifecycle.FailClean | consumer.py:213-229 | A failure path never adds results to a record. |
| Lifecycle.CompleteClean | consumer.py:189-201 | The success path stores results beside the record, never in it. |
| Lifecycle.ProcessClean | consumer.py:119-231 | `process_job` keeps every record free of results. |
| Lifecycle.AppliedClean | upload_api.py:145-184 | Puts of clean objects keep the bucket clean. |
| Lifecycle.UploadClean | upload_api.py:128-184 | An upload keeps every record free of results, whichever of its puts are taken. |
| Lifecycle.UploadWritesClean | upload_api.py:129-184 | None of the three objects an upload puts is a record with results. |
| Lifecycle.ReplayClean | consumer.py:100-101 | No sequence of uploads, job runs and status updates puts results into a record. |
| Lifecycle.NoAlertsReported | results_api.py:132-151 | With no results in the records, the alert filter keeps nothing, no summary has a match count or alert, and `total_alerts` is 0. |
| Lifecycle.RecordReadClean | results_api.py:124-125 | A record read from a bucket whose records have no results has no "results" field. |
| Lifecycle.NoResultsNoAlert | results_api.py:130-151 | A record without results never passes the alert filter, its summary has neither a match count nor an alert, and it is not counted as an alert. |
| Lifecycle.EntryNoAlert | results_api.py:132-151 | In such a bucket no listing entry adds an alert-only summary, a summary with matches, or an alert to the counts. |
| Lifecycle.AlertOnlyEmpty | results_api.py:132-136 | In every bucket the services build from an empty one, `GET /jobs?alert_only=true` answers 500 or an empty page, and `GET /stats` reports no alerts and a 0 alert rate. |
| Lifecycle.FolderOfJob | upload_api.py:103 | An upload's job id ends in a digit, so its folder name strips back to the id. |
| Lifecycle.NewRecordSeen | consumer.py:64-78 | A freshly uploaded record is picked up by the consumer's scan and listed by `GET /jobs` as pending, with no results. |
| Lifecycle.UploadThenScan | upload_api.py:128-166 | After an upload is queued, the consumer's scan picks the job up and `GET /jobs` lists it as pending, with the upload's bus, location, time and image count. |
| Lifecycle.ProcessThenResults | consumer.py:182-208 | After a successful `process_job`, `GET /jobs/{id}/results` returns the backend's answer. |
| Lifecycle.StatsAgree | upload_api.py:213-227 | Both services' `GET /stats` answer for the same listings and report the same `total_jobs`. |

## Left out

- I/O around the bucket is left out. Archive extraction and re-zipping, temporary files and their cleanup, `print` output and its formatting, and `clear_screen` are not modelled. The backend call is a parameter: its answer, a timeout, or any other exception.
- The clock, `time.sleep` and `sys.exit` are left out. Instants are parameters, and the monitor's age is a microsecond difference.
- The bucket listing is a parameter, not computed from the map. The store computes it server-side, in an order of its own choosing.
- The store's own behaviour (eventual consistency, concurrent writers, partial writes) is left out. Concurrency between consumers is not modelled beyond running them one after the other (`Consumer.ProcessedTwice`).
- Floating point is left out. `zip_size_mb` is stored unrounded, `alert_rate` is a real before rounding, and `processing_time` is not modelled.
- Python `str.lower()` is modelled on ASCII letters only. JSON object key order and the byte layout of `json.dumps` are not modelled.
- `datetime.fromisoformat` is a parameter (`parse`), None where it raises. Month lengths are not checked in `Clock.Valid`.
- pydantic's lax coercions are not modelled. A summary or detail needs each required field to have its JSON type already (strings for the text fields, an integer for `total_images`); a record that pydantic would coerce is skipped by the model.
- The text of error details (`str(e)`, the response text) is not modelled. The messages passed on to `update_job_status` are dropped by it in any case (`Consumer.FailIgnoresMessage`).
- The failure of `file.read()` and of the temporary-file writes in `upload` is not modelled.
- Monitor.RowOf: the monitor's crash when `status` is a value that cannot take the `:<10` format spec (null, a list or a dict) is not modelled. Such a row is shown.
- The monitor's `while True` refresh loop and its `KeyboardInterrupt` exit are left out. One refresh is `Monitor.Rows`.
- The root and `/health` endpoints of both services are left out: they touch no job record.
- Consumer.Process.StartJob: states only the counters, not the bucket. `Consumer.Process.ProcessJob` states the full effect, and the wrapper keeps the main loop's proof small.
- Consumer.Process.PollRound: states which jobs are started and how the counters and flag move, but not the bucket after the round.
- Consumer.Process.Run: the main loop runs over a finite sequence of rounds given by the environment. It states the stopping rule and the counters, but not the bucket.
- Consumer.Process.SignalHandler: the handler raises the flag, but its `print_stats` and `sys.exit(0)` are not modelled. A signal that arrives in the middle of a job is not modelled either.
- Consumer.ProcessFinalStatus: the store's faults are fixed per key for a whole run, so a key written once is written again. The model cannot show the "processing" update accepted and the final update then refused. In the source, `update_job_status` returns False in that case, the caller ignores it, and the record stays "processing"; the scan, which picks only "pending" jobs, never takes it again. The lemma holds only under this fixed-fault assumption.
- UploadApi.Rejection: every archive whose member list cannot be read is refused with 400. The source answers 400 only for `zipfile.BadZipFile`; another error from opening or listing the archive (an unsupported compression method, say) reaches the general handler and answers 500.
