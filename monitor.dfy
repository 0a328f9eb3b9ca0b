/** The worker monitor: it reads the worker records under `workers/` and the lock objects
    under `gpu_locks/`, and shows one row per worker with a freshness marker, its status,
    its job and a GPU marker when the worker holds a lock. */
module Monitor {
  import opened Wrappers
  import opened JsonDoc
  import opened Text
  import opened Bucket

  /** A worker counts as fresh while its record is less than 30 seconds old. */
  const StaleAfterMicros: int := 30000000

  /** The displayed worker id is cut to this many characters. */
  const WorkerIdWidth: nat := 37

  // ---- get_workers ----

  /** The worker records read from `entries`, in listing order: every entry is read as a
      JSON object key (folders included), and one that cannot be read is skipped. */
  function WorkersAmong(st: Store, entries: seq<Entry>): seq<Json>
    decreases |entries|
  {
    if entries == [] then []
    else
      WorkersAmong(st, entries[..|entries| - 1]) +
      match ReadJson(st, entries[|entries| - 1].name)
      case Found(w) => [w]
      case Failed(_) => []
  }

  /** `get_workers()`: a listing that raises ends the scan, and the records read until
      then are returned. */
  method GetWorkers(client: Client, l: Listing) returns (workers: seq<Json>)
    ensures workers == WorkersAmong(client.store, l.entries)
  {
    workers := [];
    var i := 0;
    while i < |l.entries|
      invariant 0 <= i <= |l.entries|
      invariant workers == WorkersAmong(client.store, l.entries[..i])
    {
      assert l.entries[..i + 1][..i] == l.entries[..i];
      var data := client.GetJson(l.entries[i].name);
      if data.Found? {
        workers := workers + [data.value];
      }
      i := i + 1;
    }
    assert l.entries[..i] == l.entries;
    // when l.fails the iteration raises here; the handler keeps `workers`
  }

  /** A record is returned exactly when some listed key reads back as it. */
  lemma {:induction false} WorkersMembers(st: Store, es: seq<Entry>, w: Json)
    decreases |es|
    ensures w in WorkersAmong(st, es) <==> exists e :: e in es && ReadJson(st, e.name) == Found(w)
  {
    if es != [] {
      var es', last := es[..|es| - 1], es[|es| - 1];
      assert es == es' + [last];
      WorkersMembers(st, es', w);
      if ReadJson(st, last.name) == Found(w) {
        assert last in es;
      }
      if exists e :: e in es && ReadJson(st, e.name) == Found(w) {
        var e :| e in es && ReadJson(st, e.name) == Found(w);
        if e != last {
          assert e in es';
        }
      }
    }
  }

  /** The scan reads listed keys only: two buckets that agree on every key under
      `workers/` give the same workers for a listing under that prefix. */
  lemma {:induction false} WorkersFrame(a: Store, b: Store, es: seq<Entry>)
    requires forall e :: e in es ==> StartsWith(e.name, WorkersPrefix)
    requires forall k :: StartsWith(k, WorkersPrefix) ==> AgreeOn(a, b, k)
    decreases |es|
    ensures WorkersAmong(a, es) == WorkersAmong(b, es)
  {
    if es != [] {
      var last := es[|es| - 1];
      assert last in es;
      assert AgreeOn(a, b, last.name);
      assert ReadJson(a, last.name) == ReadJson(b, last.name);
      WorkersFrame(a, b, es[..|es| - 1]);
    }
  }

  // ---- get_gpu_locks ----

  /** The worker id of a lock key: its last '/'-segment with every ".lock" removed. */
  function LockId(name: string): string {
    RemoveAll(AfterLast(name, '/'), ".lock")
  }

  /** The lock ids of `entries`, in listing order. */
  function LocksAmong(entries: seq<Entry>): (ids: seq<string>)
    ensures |ids| == |entries|
    ensures forall i :: 0 <= i < |entries| ==> ids[i] == LockId(entries[i].name)
  {
    seq(|entries|, i requires 0 <= i < |entries| => LockId(entries[i].name))
  }

  /** `get_gpu_locks()`: a listing that raises ends the scan, and the ids parsed until
      then are returned. Only key names are used; no object is read. */
  method GetGpuLocks(l: Listing) returns (locks: seq<string>)
    ensures locks == LocksAmong(l.entries)
  {
    locks := [];
    var i := 0;
    while i < |l.entries|
      invariant 0 <= i <= |l.entries|
      invariant |locks| == i
      invariant forall j :: 0 <= j < i ==> locks[j] == LockId(l.entries[j].name)
    {
      var id := LockId(l.entries[i].name);
      locks := locks + [id];
      i := i + 1;
    }
  }

  /** The lock key of a worker whose id holds no '/' and no ".lock" parses back to that id. */
  lemma LockIdRoundTrip(w: string)
    requires '/' !in w && !Occurs(w, ".lock")
    ensures LockId(LocksPrefix + w + ".lock") == w
  {
    var t := w + ".lock";
    forall i | 0 <= i < |t| ensures t[i] != '/' {
      if i < |w| {
        assert t[i] == w[i];
      }
    }
    assert LocksPrefix == "gpu_locks" + ['/'];
    assert LocksPrefix + w + ".lock" == "gpu_locks" + ['/'] + t;
    AfterLastOf("gpu_locks", '/', t);
    RemoveLockSuffix(w);
  }

  /** Every ".lock" is removed, not only the suffix: the lock of a worker named "a.lock"
      parses as "a". */
  lemma LockIdRemovesEveryLock()
    ensures LockId(LocksPrefix + "a.lock" + ".lock") == "a"
  {
    assert LocksPrefix + "a.lock" + ".lock" == "gpu_locks" + ['/'] + "a.lock.lock";
    AfterLastOf("gpu_locks", '/', "a.lock.lock");
    var s := "a.lock.lock";
    assert s[..5] != ".lock";
    assert s[1..][..5] == ".lock";
    assert s[1..][5..][..5] == ".lock";
    assert s[1..][5..][5..] == [];
  }

  // ---- one row of the screen ----

  /** One row of the worker table. */
  datatype Row = Row(isFresh: bool, workerId: string, status: Json, jobId: Json,
                     ageSeconds: int, gpu: bool)

  /** `int(delta)` for an age in microseconds: seconds, truncated toward zero. */
  function WholeSeconds(micros: int): int {
    if micros >= 0 then micros / 1000000 else -((-micros) / 1000000)
  }

  /** `delta < 30`. */
  predicate Fresh(ageMicros: int) {
    ageMicros < StaleAfterMicros
  }

  /** The row shown for the record `w` at instant `now` (microseconds). `parse` is
      `datetime.fromisoformat`, None where it raises. None when building the row raises
      (the record is not a dict, lacks "last_seen" or "worker_id", or they have the wrong
      type), which ends the monitor. */
  function RowOf(w: Json, locks: seq<string>, now: int, parse: string -> Option<int>): Option<Row> {
    if !w.Obj? || !("last_seen" in w.fields) || !w.fields["last_seen"].Str? then None
    else
      match parse(w.fields["last_seen"].s)
      case None => None
      case Some(lastSeen) =>
        if !("worker_id" in w.fields) || !w.fields["worker_id"].Str? then None
        else
          var id := w.fields["worker_id"].s;
          var age := now - lastSeen;
          Some(Row(Fresh(age),
                   if |id| <= WorkerIdWidth then id else id[..WorkerIdWidth],
                   GetOr(w.fields, "status", Str("IDLE")),
                   GetOr(w.fields, "job_id", Str("N/A")),
                   WholeSeconds(age),
                   id in locks))
  }

  /** The rows of one refresh, the i-th read at instant `now(i)`; None when a row raises. */
  function Rows(workers: seq<Json>, locks: seq<string>, now: nat -> int,
                parse: string -> Option<int>): Option<seq<Row>>
    decreases |workers|
  {
    if workers == [] then Some([])
    else
      match Rows(workers[..|workers| - 1], locks, now, parse)
      case None => None
      case Some(rows) =>
        match RowOf(workers[|workers| - 1], locks, now(|workers| - 1), parse)
        case None => None
        case Some(r) => Some(rows + [r])
  }

  /** The marker and the shown seconds agree: a worker is fresh exactly when its shown age
      is under 30 seconds, so one seen 29.9 s ago is fresh and one seen 30 s ago is stale. */
  lemma FreshAgrees(ageMicros: int)
    ensures Fresh(ageMicros) <==> WholeSeconds(ageMicros) < 30
    ensures Fresh(29999999) && !Fresh(30000000)
  {
    if ageMicros >= 0 {
      assert ageMicros < 30000000 <==> ageMicros / 1000000 < 30;
    }
  }

  /** A row shows: fresh exactly when the record is under 30 seconds old; the worker id cut
      to 37 characters; status "IDLE" and job "N/A" when the record has none; the GPU marker
      exactly when the worker's id is among the lock ids. */
  lemma RowShows(w: Json, locks: seq<string>, now: int, parse: string -> Option<int>)
    requires RowOf(w, locks, now, parse).Some?
    ensures var r := RowOf(w, locks, now, parse).value;
      var id := w.fields["worker_id"].s;
      var age := now - parse(w.fields["last_seen"].s).value;
      (r.isFresh <==> age < 30000000) && (r.isFresh <==> r.ageSeconds < 30) &&
      r.workerId <= id && |r.workerId| == (if |id| < 37 then |id| else 37) &&
      ("status" !in w.fields ==> r.status == Str("IDLE")) &&
      ("status" in w.fields ==> r.status == w.fields["status"]) &&
      ("job_id" !in w.fields ==> r.jobId == Str("N/A")) &&
      (r.gpu <==> id in locks)
  {
    FreshAgrees(now - parse(w.fields["last_seen"].s).value);
  }

  /** An id is among the parsed locks exactly when some listed key parses to it. */
  lemma LocksMembers(es: seq<Entry>, id: string)
    ensures id in LocksAmong(es) <==> exists e :: e in es && LockId(e.name) == id
  {
    var locks := LocksAmong(es);
    if id in locks {
      var i :| 0 <= i < |locks| && locks[i] == id;
      assert es[i] in es;
    }
    if exists e :: e in es && LockId(e.name) == id {
      var e :| e in es && LockId(e.name) == id;
      var i :| 0 <= i < |es| && es[i] == e;
      assert locks[i] == id;
    }
  }

  /** A row carries the GPU marker exactly when the worker's id is among the locks. */
  lemma RowGpu(w: Json, locks: seq<string>, now: int, parse: string -> Option<int>)
    requires RowOf(w, locks, now, parse).Some?
    ensures RowOf(w, locks, now, parse).value.gpu <==> w.fields["worker_id"].s in locks
  {
  }

  /** With the locks the monitor parsed, a worker gets the GPU marker exactly when some
      listed lock key parses to its id; in particular when its own lock key is listed. */
  lemma GpuMarker(w: Json, lockListing: Listing, now: int, parse: string -> Option<int>)
    requires RowOf(w, LocksAmong(lockListing.entries), now, parse).Some?
    ensures var id := w.fields["worker_id"].s;
      var r := RowOf(w, LocksAmong(lockListing.entries), now, parse).value;
      (r.gpu <==> exists e :: e in lockListing.entries && LockId(e.name) == id) &&
      ('/' !in id && !Occurs(id, ".lock") && Entry(LocksPrefix + id + ".lock", false) in lockListing.entries ==> r.gpu)
  {
    var id := w.fields["worker_id"].s;
    RowGpu(w, LocksAmong(lockListing.entries), now, parse);
    LocksMembers(lockListing.entries, id);
    if '/' !in id && !Occurs(id, ".lock") {
      LockIdRoundTrip(id);
    }
  }

  /** A refresh shows one row per worker record, in order, or ends the monitor. */
  lemma {:induction false} RowsPerWorker(workers: seq<Json>, locks: seq<string>, now: nat -> int,
                                         parse: string -> Option<int>)
    decreases |workers|
    ensures var rows := Rows(workers, locks, now, parse);
      rows.Some? <==> forall i :: 0 <= i < |workers| ==> RowOf(workers[i], locks, now(i), parse).Some?
    ensures var rows := Rows(workers, locks, now, parse);
      rows.Some? ==> (|rows.value| == |workers| &&
        forall i :: 0 <= i < |workers| ==> rows.value[i] == RowOf(workers[i], locks, now(i), parse).value)
  {
    if workers != [] {
      var init := workers[..|workers| - 1];
      RowsPerWorker(init, locks, now, parse);
      forall i | 0 <= i < |init| ensures init[i] == workers[i] {
      }
    }
  }
}
