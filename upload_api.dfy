/** The ingestion service: `POST /upload` validates an uploaded archive, names the job
    after the bus and the second it arrived, and stores the archive, the job record and an
    upload log, in that order; `GET /stats` counts the job folders. */
module UploadApi {
  import opened Wrappers
  import opened JsonDoc
  import opened Text
  import opened Clock
  import opened Bucket
  import opened Http

  /** The form of `POST /upload`. `filename` is None when the client sent none. */
  datatype UploadRequest = UploadRequest(filename: Option<string>, contents: seq<bv8>,
                                         busNumber: string, latlong: string,
                                         deviceId: Option<string>, deviceBrand: Option<string>,
                                         deviceModel: Option<string>)

  /** The body of a successful upload. */
  datatype Receipt = Receipt(jobId: string, busNumber: string, latlong: string,
                             totalImages: nat, status: string, deviceInfo: Json, message: string)

  /** What an upload answers, the bucket after it, and the puts it made, in order. */
  datatype Outcome = Outcome(reply: Reply<Receipt>, store: Store, writes: seq<Write>)

  // ---- validation ----

  /** The early answers, before anything is stored: a missing file name raises (500), a
      name not ending in ".zip" in any case, an empty body and an unreadable archive are
      refused (400). `zipNames` is the archive's member list, None when it is not a zip. */
  function Rejection(req: UploadRequest, zipNames: Option<seq<string>>): Option<Reply<Receipt>> {
    if req.filename.None? then Some(ServerError())
    else if !EndsWithNoCase(req.filename.value, ".zip") then Some(Error(400, Some("File must be ZIP")))
    else if |req.contents| == 0 then Some(Error(400, Some("Empty ZIP file")))
    else if zipNames.None? then Some(Error(400, Some("Invalid ZIP file")))
    else None
  }

  // ---- the job id ----

  /** `f"job_{bus_number}_{timestamp.strftime('%Y%m%d_%H%M%S')}"`. */
  function JobId(busNumber: string, t: DateTime): string {
    "job_" + busNumber + "_" + Stamp(t)
  }

  /** Two uploads get the same job id exactly when they name the same bus in the same
      second: the id determines both. */
  lemma JobIdCollision(b1: string, t1: DateTime, b2: string, t2: DateTime)
    requires Valid(t1) && Valid(t2)
    ensures JobId(b1, t1) == JobId(b2, t2) <==> b1 == b2 && SameSecond(t1, t2)
  {
    StampExact(t1, t2);
    StampExact(t2, t1);
    var s1, s2 := JobId(b1, t1), JobId(b2, t2);
    if s1 == s2 {
      assert |b1| == |b2|;
      assert s1[4..4 + |b1|] == b1 && s2[4..4 + |b2|] == b2;
      assert s1[|s1| - 15..] == Stamp(t1) && s2[|s2| - 15..] == Stamp(t2);
    }
    if b1 == b2 && SameSecond(t1, t2) {
      assert Stamp(t1) == Stamp(t2);
    }
  }

  // ---- the image count ----

  /** A member the upload counts as an image, by its extension in any case. */
  predicate IsImage(name: string) {
    var n := Lower(name);
    EndsWith(n, ".jpg") || EndsWith(n, ".jpeg") || EndsWith(n, ".png") || EndsWith(n, ".bmp")
  }

  /** The number of image members among `names`. */
  function ImageCount(names: seq<string>): nat
    decreases |names|
  {
    if names == [] then 0
    else ImageCount(names[..|names| - 1]) + if IsImage(names[|names| - 1]) then 1 else 0
  }

  /** Counting two runs of members adds their counts. */
  lemma {:induction false} ImageCountConcat(a: seq<string>, b: seq<string>)
    decreases |b|
    ensures ImageCount(a + b) == ImageCount(a) + ImageCount(b)
  {
    if b == [] {
      assert a + b == a;
    } else {
      var b' := b[..|b| - 1];
      assert (a + b)[..|a + b| - 1] == a + b';
      assert (a + b)[|a + b| - 1] == b[|b| - 1];
      ImageCountConcat(a, b');
    }
  }

  /** The count never exceeds the number of members and equals it exactly when every
      member is an image. */
  lemma {:induction false} ImageCountAll(names: seq<string>)
    decreases |names|
    ensures ImageCount(names) <= |names|
    ensures ImageCount(names) == |names| <==> forall i :: 0 <= i < |names| ==> IsImage(names[i])
  {
    if names != [] {
      var init := names[..|names| - 1];
      ImageCountAll(init);
      if ImageCount(names) == |names| {
        forall i | 0 <= i < |names| ensures IsImage(names[i]) {
          if i < |init| {
            assert names[i] == init[i];
          }
        }
      }
      if forall i :: 0 <= i < |names| ==> IsImage(names[i]) {
        forall i | 0 <= i < |init| ensures IsImage(init[i]) {
          assert init[i] == names[i];
        }
      }
    }
  }

  // ---- the record and the log ----

  /** An optional form field as JSON: None becomes null. */
  function OptionalStr(v: Option<string>): Json {
    if v.Some? then Str(v.value) else Null
  }

  /** `device_info`: the three device fields when a non-empty device id was sent, else null. */
  function DeviceInfo(req: UploadRequest): Json {
    if req.deviceId.Some? && req.deviceId.value != "" then
      Obj(map["device_id" := Str(req.deviceId.value),
              "device_brand" := OptionalStr(req.deviceBrand),
              "device_model" := OptionalStr(req.deviceModel)])
    else Null
  }

  /** The archive's size in MiB (`len(contents) / (1024 * 1024)`, before rounding). */
  function SizeMb(contents: seq<bv8>): real {
    (|contents| as real) / 1048576.0
  }

  /** The job record an upload stores. */
  function InitialMetadata(jobId: string, req: UploadRequest, now: DateTime, count: nat): Json {
    Obj(map["job_id" := Str(jobId),
            "bus_number" := Str(req.busNumber),
            "latlong" := Str(req.latlong),
            "timestamp" := Str(IsoFormat(now)),
            "total_images" := Int(count),
            "zip_size_mb" := Float(SizeMb(req.contents)),
            "status" := Str("pending"),
            "device_info" := DeviceInfo(req),
            "uploaded_at" := Str(IsoFormat(now))])
  }

  /** The upload log stored beside the record. */
  function UploadLog(jobId: string, req: UploadRequest, now: DateTime): Json {
    Obj(map["job_id" := Str(jobId),
            "timestamp" := Str(IsoFormat(now)),
            "device_info" := DeviceInfo(req),
            "status" := Str("success"),
            "message" := Str("Upload completed successfully")])
  }

  /** A new record is pending, has no results, carries its job id, bus, location and image
      count, is stamped once (`timestamp` equals `uploaded_at`), and has device details
      exactly when a non-empty device id was sent. */
  lemma InitialMetadataShape(jobId: string, req: UploadRequest, now: DateTime, count: nat)
    ensures var m := InitialMetadata(jobId, req, now, count);
      m.Obj? && Get(m.fields, "status") == Str("pending") && "results" !in m.fields &&
      Get(m.fields, "job_id") == Str(jobId) && Get(m.fields, "bus_number") == Str(req.busNumber) &&
      Get(m.fields, "latlong") == Str(req.latlong) && Get(m.fields, "total_images") == Int(count) &&
      Get(m.fields, "timestamp") == Get(m.fields, "uploaded_at") == Str(IsoFormat(now)) &&
      (Get(m.fields, "device_info") == Null <==> req.deviceId.None? || req.deviceId.value == "") &&
      (Get(m.fields, "device_info").Obj? ==>
         Get(Get(m.fields, "device_info").fields, "device_id") == Str(req.deviceId.value))
  {
    var m := InitialMetadata(jobId, req, now, count);
    assert "results" != "status" && "results" != "job_id" && "results" != "bus_number";
    assert "results" != "latlong" && "results" != "timestamp" && "results" != "total_images";
    assert "results" != "zip_size_mb" && "results" != "device_info" && "results" != "uploaded_at";
  }

  // ---- the three puts ----

  /** The objects after `ws` were put one after the other. */
  function Applied(objects: map<string, Blob>, ws: seq<Write>): map<string, Blob>
    decreases |ws|
  {
    if ws == [] then objects else Applied(objects[ws[0].key := ws[0].blob], ws[1..])
  }

  /** The puts made one after the other until one fails. */
  datatype Puts = Puts(store: Store, done: seq<Write>, ok: bool)

  /** Put `ws` in order; the first refused put raises, and the ones before it stay. */
  function PutInOrder(st: Store, ws: seq<Write>): Puts
    decreases |ws|
  {
    if ws == [] then Puts(st, [], true)
    else
      match Put(st, ws[0].key, ws[0].blob)
      case None => Puts(st, [], false)
      case Some(st') =>
        var rest := PutInOrder(st', ws[1..]);
        Puts(rest.store, [ws[0]] + rest.done, rest.ok)
  }

  /** One put of `PutInOrder`: a refused key stops the run with nothing done, otherwise the
      object is stored and the run goes on with the rest. */
  lemma PutStep(st: Store, ws: seq<Write>)
    requires ws != []
    ensures var p := PutInOrder(st, ws);
      if ws[0].key in st.writeFaults then p == Puts(st, [], false)
      else
        var rest := PutInOrder(st.(objects := st.objects[ws[0].key := ws[0].blob]), ws[1..]);
        p == Puts(rest.store, [ws[0]] + rest.done, rest.ok)
  {
  }

  /** The puts made are a prefix of those asked for, all of them exactly when none is
      refused; a stopped run stops at the first refused key; the bucket holds exactly what
      was put. */
  lemma {:induction false} PutInOrderSpec(st: Store, ws: seq<Write>)
    decreases |ws|
    ensures var p := PutInOrder(st, ws);
      p.done <= ws && (p.ok <==> p.done == ws) &&
      (p.ok <==> forall i :: 0 <= i < |ws| ==> ws[i].key !in st.writeFaults) &&
      (!p.ok ==> ws[|p.done|].key in st.writeFaults) &&
      (forall i :: 0 <= i < |p.done| ==> p.done[i].key !in st.writeFaults) &&
      p.store == st.(objects := Applied(st.objects, p.done))
  {
    if ws != [] && ws[0].key !in st.writeFaults {
      var st' := Put(st, ws[0].key, ws[0].blob).value;
      PutInOrderSpec(st', ws[1..]);
      var p := PutInOrder(st, ws);
      var rest := PutInOrder(st', ws[1..]);
      assert p.done == [ws[0]] + rest.done;
      if !rest.ok {
        assert ws[|p.done|] == ws[1..][|rest.done|];
      }
      if forall i :: 0 <= i < |ws| ==> ws[i].key !in st.writeFaults {
        forall i | 0 <= i < |ws[1..]| ensures ws[1..][i].key !in st'.writeFaults {
          assert ws[1..][i] == ws[i + 1];
        }
      }
      if p.ok {
        forall i | 0 <= i < |ws| ensures ws[i].key !in st.writeFaults {
          if i > 0 {
            assert ws[i] == ws[1..][i - 1];
          }
        }
      }
      forall i | 0 <= i < |p.done| ensures p.done[i].key !in st.writeFaults {
        if i > 0 {
          assert p.done[i] == rest.done[i - 1];
        }
      }
    }
  }

  /** The puts of an accepted upload: archive, record, log. */
  function UploadWrites(jobId: string, req: UploadRequest, now: DateTime, count: nat): seq<Write> {
    [Write(ImagesKey(jobId), Binary(req.contents)),
     Write(MetadataKey(jobId), Doc(InitialMetadata(jobId, req, now, count))),
     Write(UploadLogKey(jobId), Doc(UploadLog(jobId, req, now)))]
  }

  /** `upload(...)` at time `now` on the bucket `st`. */
  function UploadOutcome(st: Store, req: UploadRequest, now: DateTime,
                         zipNames: Option<seq<string>>): Outcome {
    match Rejection(req, zipNames)
    case Some(r) => Outcome(r, st, [])
    case None =>
      var jobId := JobId(req.busNumber, now);
      var count := ImageCount(zipNames.value);
      var p := PutInOrder(st, UploadWrites(jobId, req, now, count));
      var reply :=
        if p.ok then
          Ok(Receipt(jobId, req.busNumber, req.latlong, count, "queued", DeviceInfo(req),
                     "✅ Upload successful! Job queued: " + jobId))
        else ServerError();
      Outcome(reply, p.store, p.done)
  }

  /** A rejected upload stores nothing and answers 400, or 500 for a missing file name;
      every refusal comes before the first put. */
  lemma UploadRejected(st: Store, req: UploadRequest, now: DateTime, zipNames: Option<seq<string>>)
    requires Rejection(req, zipNames).Some?
    ensures var o := UploadOutcome(st, req, now, zipNames);
      o.store == st && o.writes == [] && o.reply.Error? &&
      (o.reply.code == 500 <==> req.filename.None?) &&
      (o.reply.code == 400 <==> (req.filename.Some? &&
         (!EndsWithNoCase(req.filename.value, ".zip") || |req.contents| == 0 || zipNames.None?)))
  {
  }

  /** Three puts in a row: all are taken exactly when none of their keys is refused, and
      then the bucket holds the three objects. */
  lemma ThreePuts(st: Store, ws: seq<Write>)
    requires |ws| == 3
    ensures var p := PutInOrder(st, ws);
      (p.ok <==> ws[0].key !in st.writeFaults && ws[1].key !in st.writeFaults &&
                 ws[2].key !in st.writeFaults) &&
      (p.ok ==> p.store.objects ==
                st.objects[ws[0].key := ws[0].blob][ws[1].key := ws[1].blob][ws[2].key := ws[2].blob])
  {
    PutInOrderSpec(st, ws);
    var p := PutInOrder(st, ws);
    if p.ok {
      var o0 := st.objects;
      var o1 := o0[ws[0].key := ws[0].blob];
      var o2 := o1[ws[1].key := ws[1].blob];
      assert ws[1..][1..][1..] == [];
      assert ws[1..][0] == ws[1] && ws[1..][1..][0] == ws[2];
      calc {
        Applied(o0, ws);
        Applied(o1, ws[1..]);
        Applied(o2, ws[1..][1..]);
        Applied(o2[ws[2].key := ws[2].blob], []);
      }
    }
    if ws[0].key !in st.writeFaults && ws[1].key !in st.writeFaults && ws[2].key !in st.writeFaults {
      forall i | 0 <= i < |ws| ensures ws[i].key !in st.writeFaults {
      }
    }
  }

  /** An accepted upload puts the archive, the record and the log, in that order, and stops
      at the first refused put, which answers 500 and leaves the earlier puts in place. */
  lemma UploadStored(st: Store, req: UploadRequest, now: DateTime, zipNames: Option<seq<string>>)
    requires Rejection(req, zipNames).None?
    ensures var o := UploadOutcome(st, req, now, zipNames);
      var jobId := JobId(req.busNumber, now);
      var ws := UploadWrites(jobId, req, now, ImageCount(zipNames.value));
      o.writes <= ws && o.store == st.(objects := Applied(st.objects, o.writes)) &&
      (o.reply.Ok? <==> o.writes == ws) &&
      (o.reply.Error? ==> o.reply.code == 500 && ws[|o.writes|].key in st.writeFaults) &&
      (o.reply.Ok? <==> ImagesKey(jobId) !in st.writeFaults && MetadataKey(jobId) !in st.writeFaults &&
                        UploadLogKey(jobId) !in st.writeFaults)
  {
    var jobId := JobId(req.busNumber, now);
    var ws := UploadWrites(jobId, req, now, ImageCount(zipNames.value));
    PutInOrderSpec(st, ws);
    ThreePuts(st, ws);
  }

  /** When all three puts are taken the upload answers "queued" with the job id and the
      image count, the bucket holds the archive, the new pending record and the log, and
      the record reads back as written. */
  lemma UploadQueued(st: Store, req: UploadRequest, now: DateTime, zipNames: Option<seq<string>>)
    requires Rejection(req, zipNames).None?
    requires UploadOutcome(st, req, now, zipNames).reply.Ok?
    ensures var o := UploadOutcome(st, req, now, zipNames);
      var jobId := JobId(req.busNumber, now);
      var count := ImageCount(zipNames.value);
      o.reply.body.jobId == jobId && o.reply.body.status == "queued" &&
      o.reply.body.totalImages == count &&
      o.store.objects == st.objects[ImagesKey(jobId) := Binary(req.contents)]
                                   [MetadataKey(jobId) := Doc(InitialMetadata(jobId, req, now, count))]
                                   [UploadLogKey(jobId) := Doc(UploadLog(jobId, req, now))] &&
      (MetadataKey(jobId) !in st.readFaults ==>
         ReadJson(o.store, MetadataKey(jobId)) == Found(InitialMetadata(jobId, req, now, count)))
  {
    var jobId := JobId(req.busNumber, now);
    var ws := UploadWrites(jobId, req, now, ImageCount(zipNames.value));
    ThreePuts(st, ws);
    PutInOrderSpec(st, ws);
    KeyLayout(jobId, jobId);
  }

  /** `upload(file, bus_number, latlong, device_id, device_brand, device_model)`. */
  method Upload(client: Client, req: UploadRequest, now: DateTime, zipNames: Option<seq<string>>)
    returns (r: Reply<Receipt>)
    modifies client
    ensures var o := UploadOutcome(old(client.store), req, now, zipNames);
            r == o.reply && client.store == o.store && client.log == old(client.log) + o.writes
  {
    if req.filename.None? {
      return ServerError();
    }
    if !EndsWithNoCase(req.filename.value, ".zip") {
      return Error(400, Some("File must be ZIP"));
    }
    var jobId := JobId(req.busNumber, now);
    if |req.contents| == 0 {
      return Error(400, Some("Empty ZIP file"));
    }
    if zipNames.None? {
      return Error(400, Some("Invalid ZIP file"));
    }
    var count := ImageCount(zipNames.value);
    var metadata := InitialMetadata(jobId, req, now, count);
    var ws := UploadWrites(jobId, req, now, count);
    assert ws[1..][0] == ws[1] && ws[1..][1..][0] == ws[2] && ws[1..][1..][1..] == [];
    PutStep(client.store, ws);
    var ok := client.PutObject(ImagesKey(jobId), Binary(req.contents));
    if !ok {
      return ServerError();
    }
    PutStep(client.store, ws[1..]);
    ok := client.PutObject(MetadataKey(jobId), Doc(metadata));
    if !ok {
      return ServerError();
    }
    PutStep(client.store, ws[1..][1..]);
    ok := client.PutObject(UploadLogKey(jobId), Doc(UploadLog(jobId, req, now)));
    if !ok {
      return ServerError();
    }
    r := Ok(Receipt(jobId, req.busNumber, req.latlong, count, "queued", DeviceInfo(req),
                    "✅ Upload successful! Job queued: " + jobId));
  }

  // ---- get_stats ----

  /** `GET /stats` of the upload service: the number of folders in the listing, 500 when
      the listing raises. */
  function UploadStatsReply(l: Listing): (r: Reply<nat>)
    ensures r.Ok? <==> !l.fails
    ensures r.Error? ==> r.code == 500
  {
    if l.fails then ServerError() else Ok(Folders(l.entries))
  }
}
