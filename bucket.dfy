/** The object-store bucket shared by every service, seen as a map from keys to objects,
    the fixed key layout the services agree on, and the client through which each
    service reads and writes it. */
module Bucket {
  import opened Wrappers
  import opened JsonDoc
  import opened Text

  /** A stored object: a JSON document, or bytes that do not decode as JSON (the archive). */
  datatype Blob = Doc(json: Json) | Binary(bytes: seq<bv8>)

  /** The bucket. Requests for a key in `readFaults` (reads) or `writeFaults` (writes) fail
      with a store error other than a missing key. */
  datatype Store = Store(objects: map<string, Blob>, readFaults: set<string>, writeFaults: set<string>)

  /** One item of a non-recursive listing: an object, or a common prefix ("directory")
      whose name ends in '/'. */
  datatype Entry = Entry(name: string, isDir: bool)

  /** What a listing iterator yields: `entries` in the order the store chose, after which
      the iteration raises a store error when `fails` holds. A listing that fails at once
      is `Listing([], true)`. */
  datatype Listing = Listing(entries: seq<Entry>, fails: bool)

  /** Why reading a JSON object failed: `NoSuchKey` is the store's missing-key error,
      `StoreFault` any other store error, `NotJson` a decode error. */
  datatype ReadFailure = NoSuchKey | StoreFault | NotJson

  datatype Read<T> = Found(value: T) | Failed(why: ReadFailure)

  /** A successful put, as recorded in a write log. */
  datatype Write = Write(key: string, blob: Blob)

  const EmptyStore: Store := Store(map[], {}, {})

  /** `get_object(key)`. */
  function GetObject(st: Store, key: string): Read<Blob> {
    if key in st.readFaults then Failed(StoreFault)
    else if key !in st.objects then Failed(NoSuchKey)
    else Found(st.objects[key])
  }

  /** `json.loads(get_object(key).read().decode('utf-8'))`. */
  function ReadJson(st: Store, key: string): Read<Json> {
    match GetObject(st, key)
    case Failed(why) => Failed(why)
    case Found(b) => if b.Doc? then Found(b.json) else Failed(NotJson)
  }

  /** `put_object(key, blob)`: None when the store refuses the write. */
  function Put(st: Store, key: string, b: Blob): Option<Store> {
    if key in st.writeFaults then None else Some(st.(objects := st.objects[key := b]))
  }

  /** The two stores hold the same object under `key` and fail on it alike. */
  predicate AgreeOn(a: Store, b: Store, key: string) {
    (key in a.readFaults <==> key in b.readFaults) &&
    (key in a.objects <==> key in b.objects) &&
    (key in a.objects ==> a.objects[key] == b.objects[key])
  }

  /** What a put leaves behind: an accepted put is read back as the object put (as the
      decoded document when it is one) unless reads of that key fail, and every other key
      reads as before. */
  lemma ReadAfterPut(st: Store, key: string, b: Blob, other: string)
    requires Put(st, key, b).Some?
    ensures var st' := Put(st, key, b).value;
      (key !in st.readFaults ==> GetObject(st', key) == Found(b)) &&
      (key !in st.readFaults && b.Doc? ==> ReadJson(st', key) == Found(b.json)) &&
      (key in st.readFaults ==> GetObject(st', key) == Failed(StoreFault)) &&
      (other != key ==> GetObject(st', other) == GetObject(st, other) &&
                        ReadJson(st', other) == ReadJson(st, other))
  {
  }

  /** The number of folders among `entries`. */
  function Folders(entries: seq<Entry>): nat
    decreases |entries|
  {
    if entries == [] then 0
    else Folders(entries[..|entries| - 1]) + if entries[|entries| - 1].isDir then 1 else 0
  }

  // ---- key layout ----

  /** The job id of a listed folder: its name without trailing '/' (`rstrip('/')`). */
  function FolderId(name: string): string { RStrip(name, '/') }

  function MetadataKey(jobId: string): string { jobId + "/metadata.json" }
  function ImagesKey(jobId: string): string { jobId + "/images.zip" }
  function ResultsKey(jobId: string): string { jobId + "/results.json" }
  function UploadLogKey(jobId: string): string { jobId + "/upload_log.json" }

  const MetadataSuffix: string := "/metadata.json"
  const WorkersPrefix: string := "workers/"
  const LocksPrefix: string := "gpu_locks/"

  /** A key names a job record exactly when it ends in "/metadata.json": the job's other
      objects never do, and each job's records live under distinct keys. */
  lemma KeyLayout(a: string, b: string)
    ensures EndsWith(MetadataKey(a), MetadataSuffix)
    ensures !EndsWith(ImagesKey(a), MetadataSuffix)
    ensures !EndsWith(ResultsKey(a), MetadataSuffix)
    ensures !EndsWith(UploadLogKey(a), MetadataSuffix)
    ensures MetadataKey(a) == MetadataKey(b) <==> a == b
    ensures ResultsKey(a) == ResultsKey(b) <==> a == b
    ensures ImagesKey(a) != MetadataKey(a) && ImagesKey(a) != ResultsKey(a)
    ensures ResultsKey(a) != MetadataKey(a) && UploadLogKey(a) != MetadataKey(a)
    ensures UploadLogKey(a) != ImagesKey(a) && UploadLogKey(a) != ResultsKey(a)
  {
    var r := ResultsKey(a);
    assert r[|r| - 13] == '/';
    var u := UploadLogKey(a);
    assert u[|u| - 14] == 'p';
    var i := ImagesKey(a);
    assert i[|i| - 1] == 'p';
    if MetadataKey(a) == MetadataKey(b) {
      assert a == MetadataKey(a)[..|a|];
    }
    if ResultsKey(a) == ResultsKey(b) {
      assert a == ResultsKey(a)[..|a|];
    }
  }

  /** The service's `minio_client`. `log` records every successful put, in order. */
  class Client {
    var store: Store
    ghost var log: seq<Write>

    constructor (st: Store)
      ensures store == st && log == []
    {
      store := st;
      log := [];
    }

    /** `get_object` followed by a JSON decode. */
    method GetJson(key: string) returns (r: Read<Json>)
      ensures r == ReadJson(store, key)
    {
      r := ReadJson(store, key);
    }

    /** `fget_object`: download an object whatever its contents. */
    method Download(key: string) returns (r: Read<Blob>)
      ensures r == GetObject(store, key)
    {
      r := GetObject(store, key);
    }

    /** `put_object`: a refused write raises and leaves the bucket unchanged. */
    method PutObject(key: string, b: Blob) returns (ok: bool)
      modifies this
      ensures ok <==> key !in old(store).writeFaults
      ensures ok ==> store == old(store).(objects := old(store).objects[key := b])
      ensures !ok ==> store == old(store)
      ensures log == old(log) + (if ok then [Write(key, b)] else [])
    {
      ok := key !in store.writeFaults;
      if ok {
        store := store.(objects := store.objects[key := b]);
        log := log + [Write(key, b)];
      }
    }
  }
}
