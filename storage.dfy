/**
 * backend/src/services/storage.py: the MinIO wrapper (`StorageService`) and the
 * lazily initialised module-global client (`get_storage_client`).
 *
 * The MinIO server is a `BlobStore` object holding every bucket and object; the
 * server's own failures are inputs (`Option<Exc>`) of the calls that meet them.
 */
module Storage {
  import opened Wrappers
  import Text

  type Bytes = seq<bv8>

  /** Bucket name -> object name -> object contents. */
  type Buckets = map<string, map<string, Bytes>>

  /** The default of `settings.MINIO_BUCKET_NAME` (backend/src/config.py). */
  const BucketName: string := "raw-images"

  /** An exception; `message` is what `str(e)` shows of it. */
  datatype Exc = S3Error(code: string, message: string) | OtherError(message: string)

  /** What `put_object` raises when the bucket is absent. */
  const NoSuchBucket: Exc := S3Error("NoSuchBucket", "The specified bucket does not exist")

  /** What `get_object` raises when the object is absent. */
  const NoSuchKey: Exc := S3Error("NoSuchKey", "The specified key does not exist.")

  /** The path `upload_file` hands back: `"<bucket>/<name>"`. */
  function ObjectPath(bucket: string, name: string): string
  {
    bucket + "/" + name
  }

  /** The path is the bucket, then a `/` at index `|bucket|`, then the object name. */
  lemma ObjectPathParts(bucket: string, name: string)
    ensures var p := ObjectPath(bucket, name);
      |p| == |bucket| + 1 + |name| && p[|bucket|] == '/' && p[..|bucket|] == bucket && p[|bucket| + 1..] == name
  {
  }

  /**
   * The worker's `storage_path.split("/", 1)` recovers bucket and object name
   * from every path `upload_file` returns, provided the bucket name has no `/`;
   * the object name may hold any number of them.
   */
  lemma PathRoundTrip(bucket: string, name: string)
    requires '/' !in bucket
    ensures Text.SplitOnce(ObjectPath(bucket, name), '/') == Some((bucket, name))
  {
    Text.SplitOnceUnique(bucket, '/', name);
  }

  /** The configured bucket name satisfies the round trip's condition. */
  lemma DefaultBucketHasNoSlash()
    ensures '/' !in BucketName
  {
  }

  /** State and raised exception after one `_ensure_bucket_exists` call. */
  datatype EnsureOutcome = EnsureOutcome(raised: Option<Exc>, buckets: Buckets)

  /**
   * `_ensure_bucket_exists`: create the configured bucket when `bucket_exists`
   * says it is absent. An `S3Error` from either call is swallowed; any other
   * exception escapes to the caller.
   */
  function EnsureBucket(b: Buckets, existsFault: Option<Exc>, makeFault: Option<Exc>): (r: EnsureOutcome)
    ensures BucketName in b ==> r.buckets == b
    ensures r.buckets == b || r.buckets == b[BucketName := map[]]
    ensures BucketName in r.buckets <==> BucketName in b || (existsFault.None? && makeFault.None?)
    ensures r.raised.Some? ==> r.buckets == b && !r.raised.value.S3Error?
    ensures r.raised.Some? <==>
      (existsFault.Some? && existsFault.value.OtherError?) ||
      (existsFault.None? && BucketName !in b && makeFault.Some? && makeFault.value.OtherError?)
  {
    match existsFault
    case Some(e) => EnsureOutcome(if e.S3Error? then None else Some(e), b)
    case None =>
      if BucketName in b then EnsureOutcome(None, b)
      else
        match makeFault
        case Some(e) => EnsureOutcome(if e.S3Error? then None else Some(e), b)
        case None => EnsureOutcome(None, b[BucketName := map[]])
  }

  /** Once the bucket is there, a second `_ensure_bucket_exists` changes nothing. */
  lemma EnsureBucketIdempotent(b: Buckets, f1: Option<Exc>, m1: Option<Exc>, f2: Option<Exc>, m2: Option<Exc>)
    requires EnsureBucket(b, f1, m1).raised.None? && f1.None? && m1.None?
    ensures EnsureBucket(EnsureBucket(b, f1, m1).buckets, f2, m2) == EnsureOutcome(
      if f2.Some? && f2.value.OtherError? then f2 else None, EnsureBucket(b, f1, m1).buckets)
  {
  }

  /** Failures met while building `StorageService()`. */
  datatype InitFaults = InitFaults(construct: Option<Exc>, existsCheck: Option<Exc>, make: Option<Exc>)

  /** `StorageService()`: build the `Minio` client, then `_ensure_bucket_exists`. */
  function Init(b: Buckets, f: InitFaults): (r: EnsureOutcome)
    ensures r.raised.Some? ==> r.buckets == b
    ensures r.raised.None? <==> f.construct.None? && EnsureBucket(b, f.existsCheck, f.make).raised.None?
    ensures r.raised.None? ==> r.buckets == EnsureBucket(b, f.existsCheck, f.make).buckets
  {
    if f.construct.Some? then EnsureOutcome(f.construct, b) else EnsureBucket(b, f.existsCheck, f.make)
  }

  /** Result and state after one `upload_file` call. */
  datatype PutOutcome = PutOutcome(path: Result<string, Exc>, buckets: Buckets)

  /**
   * `upload_file`: `put_object` into the configured bucket, then hand back the
   * object's path; any failure is re-raised and nothing is stored.
   */
  function Put(b: Buckets, name: string, data: Bytes, fault: Option<Exc>): (r: PutOutcome)
    ensures r.path.Success? <==> fault.None? && BucketName in b
    ensures r.path.Success? ==>
      && r.path.value == ObjectPath(BucketName, name)
      && BucketName in r.buckets && name in r.buckets[BucketName] && r.buckets[BucketName][name] == data
    ensures r.path.Failure? ==> r.buckets == b
    ensures r.path.Failure? && fault.Some? ==> r.path.error == fault.value
    ensures r.path.Failure? && fault.None? ==> r.path.error == NoSuchBucket
  {
    if fault.Some? then PutOutcome(Failure(fault.value), b)
    else if BucketName !in b then PutOutcome(Failure(NoSuchBucket), b)
    else PutOutcome(Success(ObjectPath(BucketName, name)), b[BucketName := b[BucketName][name := data]])
  }

  /** A successful upload leaves every other bucket and every other object as it was. */
  lemma PutKeepsOthers(b: Buckets, name: string, data: Bytes)
    requires BucketName in b
    ensures var r := Put(b, name, data, None).buckets;
      && r.Keys == b.Keys
      && (forall bk :: bk in b && bk != BucketName ==> r[bk] == b[bk])
      && r[BucketName].Keys == b[BucketName].Keys + {name}
      && (forall o :: o in b[BucketName] && o != name ==> r[BucketName][o] == b[BucketName][o])
  {
  }

  /** `get_object(bucket, name)` followed by `read()`. */
  function Get(b: Buckets, bucket: string, name: string, fault: Option<Exc>): (r: Result<Bytes, Exc>)
    ensures r.Success? <==> fault.None? && bucket in b && name in b[bucket]
    ensures r.Success? ==> r.value == b[bucket][name]
  {
    if fault.Some? then Failure(fault.value)
    else if bucket !in b || name !in b[bucket] then Failure(NoSuchKey)
    else Success(b[bucket][name])
  }

  /** What a successful upload stores, a fault-free download gives back. */
  lemma {:induction false} GetAfterPut(b: Buckets, name: string, data: Bytes)
    requires BucketName in b
    ensures Put(b, name, data, None).path == Success(ObjectPath(BucketName, name))
    ensures Get(Put(b, name, data, None).buckets, BucketName, name, None) == Success(data)
  {
  }

  /** The MinIO server: every bucket and the objects in it. */
  class BlobStore {
    var buckets: Buckets

    constructor (initial: Buckets)
      ensures buckets == initial
    {
      buckets := initial;
    }
  }

  /** `StorageService`: a MinIO client bound to one server. */
  class StorageService {
    const client: BlobStore

    /** `Minio(...)` itself; `__init__`'s bucket check is `EnsureBucketExists`. */
    constructor (client: BlobStore)
      ensures this.client == client
    {
      this.client := client;
    }

    /** backend/src/services/storage.py `_ensure_bucket_exists`. */
    method EnsureBucketExists(existsFault: Option<Exc>, makeFault: Option<Exc>) returns (raised: Option<Exc>)
      modifies client
      ensures EnsureOutcome(raised, client.buckets) == EnsureBucket(old(client.buckets), existsFault, makeFault)
    {
      raised := None;
      if existsFault.Some? {
        if !existsFault.value.S3Error? {
          raised := existsFault;
        }
        return;
      }
      if BucketName !in client.buckets {
        if makeFault.Some? {
          if !makeFault.value.S3Error? {
            raised := makeFault;
          }
          return;
        }
        client.buckets := client.buckets[BucketName := map[]];
      }
    }

    /** backend/src/services/storage.py `upload_file`; `contentType` is metadata only. */
    method UploadFile(data: Bytes, fileName: string, contentType: string, fault: Option<Exc>)
      returns (path: Result<string, Exc>)
      modifies client
      ensures PutOutcome(path, client.buckets) == Put(old(client.buckets), fileName, data, fault)
    {
      if fault.Some? {
        return Failure(fault.value);
      }
      if BucketName !in client.buckets {
        return Failure(NoSuchBucket);
      }
      client.buckets := client.buckets[BucketName := client.buckets[BucketName][fileName := data]];
      path := Success(ObjectPath(BucketName, fileName));
    }
  }

  /**
   * The module global `_storage_client_instance` of one process, with the
   * server its clients talk to.
   */
  class StorageGlobal {
    const server: BlobStore
    var instance: StorageService?

    ghost predicate Valid()
      reads this
    {
      instance != null ==> instance.client == server
    }

    /** The module as imported: no client yet. */
    constructor (server: BlobStore)
      ensures this.server == server && instance == null && Valid()
    {
      this.server := server;
      instance := null;
    }

    /**
     * backend/src/services/storage.py `get_storage_client`. A cached client is
     * returned as it is; otherwise one is built, cached and returned, and when
     * building it raises, `None` is returned and nothing is cached, so the next
     * call tries again.
     */
    method GetStorageClient(f: InitFaults) returns (c: StorageService?)
      requires Valid()
      modifies this, server
      ensures Valid() && c == instance
      ensures old(instance) != null ==> instance == old(instance) && server.buckets == old(server.buckets)
      ensures old(instance) == null ==>
        && server.buckets == Init(old(server.buckets), f).buckets
        && (instance != null <==> Init(old(server.buckets), f).raised.None?)
        && (instance != null ==> fresh(instance))
    {
      if instance == null {
        if f.construct.Some? {
          return null;
        }
        var s := new StorageService(server);
        var raised := s.EnsureBucketExists(f.existsCheck, f.make);
        if raised.Some? {
          return null;
        }
        instance := s;
      }
      c := instance;
    }
  }
}
