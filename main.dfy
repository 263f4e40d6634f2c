/**
 * backend/src/main.py: the two endpoints of the job pipeline. `upload_and_detect`
 * stores an image under a fresh name and enqueues one job; `get_result` reports
 * a task's state from the result backend and the result table.
 */
module Api {
  import opened Wrappers
  import Text
  import Storage
  import opened Models
  import opened Celery

  /** The multipart file of `POST /api/v1/detect`. */
  datatype Upload = Upload(filename: string, contentType: string)

  /** Everything outside the handler's own code that one request meets. */
  datatype IngestEnv = IngestEnv(
    read: Result<Storage.Bytes, Storage.Exc>,  // `await file.read()`
    uuid: string,                              // `str(uuid.uuid4())`
    uploadFault: Option<Storage.Exc>,          // `put_object` raising
    now: int,                                  // `time.time()`, milliseconds
    taskId: string,                            // the id `delay` assigns
    enqueueFault: Option<Storage.Exc>)         // `delay` raising

  /** The 200 response. */
  datatype Received = Received(status: string, taskId: string, filename: string, message: string)

  /** An `HTTPException`. */
  datatype HttpError = HttpError(statusCode: int, detail: string)

  const StorageUnavailable: HttpError := HttpError(503, "Storage service is unavailable")
  const QueuedMessage: string := "Image queued for processing"

  /** The stored name: a fresh uuid, a dot, and the text after the original name's last dot. */
  function UniqueFilename(uuid: string, filename: string): (name: string)
    ensures Text.AfterLast(name, '.') == Text.AfterLast(filename, '.')
    ensures |uuid| < |name| && name[..|uuid| + 1] == uuid + "."
    ensures name[|uuid| + 1..] == Text.AfterLast(filename, '.')
  {
    var name := uuid + "." + Text.AfterLast(filename, '.');
    Text.AfterLastOfJoin(uuid, '.', Text.AfterLast(filename, '.'));
    assert name[..|uuid| + 1] == uuid + ".";
    assert name[|uuid| + 1..] == Text.AfterLast(filename, '.');
    name
  }

  /**
   * Nothing of the original name but its extension survives: for one uuid,
   * two uploads get the same stored name exactly when their extensions agree.
   */
  lemma UniqueFilenameKeepsOnlyExtension(uuid: string, f1: string, f2: string)
    ensures UniqueFilename(uuid, f1) == UniqueFilename(uuid, f2) <==>
            Text.AfterLast(f1, '.') == Text.AfterLast(f2, '.')
  {
    if UniqueFilename(uuid, f1) == UniqueFilename(uuid, f2) {
      assert Text.AfterLast(UniqueFilename(uuid, f1), '.') == Text.AfterLast(UniqueFilename(uuid, f2), '.');
    }
  }

  /** Response, store and published messages after lines 52-71 of one request. */
  datatype IngestOutcome = IngestOutcome(response: Result<Received, HttpError>, buckets: Storage.Buckets, sent: seq<Message>)

  /**
   * `upload_and_detect` once a storage client is at hand: read, name, upload,
   * enqueue; any exception on the way is a 500 carrying its message.
   */
  function Ingest(b: Storage.Buckets, u: Upload, env: IngestEnv): (o: IngestOutcome)
    ensures o.response.Success? <==>
      env.read.Success? && env.uploadFault.None? && Storage.BucketName in b && env.enqueueFault.None?
    ensures o.response.Failure? ==> o.response.error.statusCode == 500 && o.sent == []
    ensures o.response.Success? ==>
      var name := UniqueFilename(env.uuid, u.filename);
      && o.response.value == Received("received", env.taskId, name, QueuedMessage)
      && o.sent == [Message(env.taskId, Job(name, Storage.ObjectPath(Storage.BucketName, name), env.now))]
    ensures env.read.Failure? ==> o.buckets == b && o.response == Failure(HttpError(500, env.read.error.message))
    ensures env.read.Success? ==>
      o.buckets == Storage.Put(b, UniqueFilename(env.uuid, u.filename), env.read.value, env.uploadFault).buckets
    ensures env.read.Success? && o.response.Failure? ==>
      var put := Storage.Put(b, UniqueFilename(env.uuid, u.filename), env.read.value, env.uploadFault);
      o.response.error.detail == if put.path.Failure? then put.path.error.message else env.enqueueFault.value.message
  {
    match env.read
    case Failure(e) => IngestOutcome(Failure(HttpError(500, e.message)), b, [])
    case Success(content) => Stored(b, UniqueFilename(env.uuid, u.filename), content, env)
  }

  /** Lines 60-71 once the name is chosen: upload, then enqueue; either failure is a 500. */
  function Stored(b: Storage.Buckets, name: string, content: Storage.Bytes, env: IngestEnv): (o: IngestOutcome)
    ensures var put := Storage.Put(b, name, content, env.uploadFault);
      && (o.response.Success? <==> put.path.Success? && env.enqueueFault.None?)
      && o.buckets == put.buckets
      && (o.response.Failure? ==>
            o.sent == [] &&
            o.response.error == HttpError(500, if put.path.Failure? then put.path.error.message
                                               else env.enqueueFault.value.message))
      && (o.response.Success? ==>
            o.response.value.filename == name && o.sent == [Message(env.taskId, Job(name, put.path.value, env.now))])
  {
    var put := Storage.Put(b, name, content, env.uploadFault);
    match put.path
    case Failure(e) => IngestOutcome(Failure(HttpError(500, e.message)), put.buckets, [])
    case Success(path) =>
      if env.enqueueFault.Some? then
        IngestOutcome(Failure(HttpError(500, env.enqueueFault.value.message)), put.buckets, [])
      else
        IngestOutcome(Success(Received("received", env.taskId, name, QueuedMessage)), put.buckets,
                      [Message(env.taskId, Job(name, path, env.now))])
  }

  /** A refused enqueue still leaves the uploaded image in the store. */
  lemma EnqueueFailureKeepsUpload(b: Storage.Buckets, u: Upload, env: IngestEnv)
    requires env.read.Success? && env.uploadFault.None? && Storage.BucketName in b && env.enqueueFault.Some?
    ensures Ingest(b, u, env).response == Failure(HttpError(500, env.enqueueFault.value.message))
    ensures Storage.Get(Ingest(b, u, env).buckets, Storage.BucketName, UniqueFilename(env.uuid, u.filename), None)
            == Success(env.read.value)
  {
  }

  /** The API process: its storage global and the broker. */
  class App {
    const storage: Storage.StorageGlobal
    const broker: Broker

    constructor (storage: Storage.StorageGlobal, broker: Broker)
      ensures this.storage == storage && this.broker == broker
    {
      this.storage, this.broker := storage, broker;
    }

    /**
     * `POST /api/v1/detect`. Without a storage client: 503, and nothing is
     * read, uploaded or enqueued. Otherwise the store and the broker change
     * exactly as `Ingest` says: at most one upload and at most one message.
     */
    method UploadAndDetect(u: Upload, init: Storage.InitFaults, env: IngestEnv) returns (r: Result<Received, HttpError>)
      requires storage.Valid()
      modifies storage, storage.server, broker
      ensures storage.Valid()
      ensures broker.states == old(broker.states)
      ensures old(storage.instance) != null ==> storage.instance == old(storage.instance)
      ensures old(storage.instance) == null ==>
        (storage.instance != null <==> Storage.Init(old(storage.server.buckets), init).raised.None?)
      ensures storage.instance == null ==>
        && r == Failure(StorageUnavailable)
        && broker.messages == old(broker.messages)
        && storage.server.buckets == old(storage.server.buckets)
      ensures storage.instance != null ==>
        var o := Ingest(if old(storage.instance) != null then old(storage.server.buckets)
                        else Storage.Init(old(storage.server.buckets), init).buckets, u, env);
        && r == o.response
        && storage.server.buckets == o.buckets
        && broker.messages == old(broker.messages) + o.sent
    {
      var client := storage.GetStorageClient(init);
      if client == null {
        return Failure(StorageUnavailable);
      }
      r := Submit(client, u, env);
    }

    /** Lines 52-71 with the client at hand: read the upload, name it, store and enqueue it. */
    method Submit(client: Storage.StorageService, u: Upload, env: IngestEnv) returns (r: Result<Received, HttpError>)
      modifies client.client, broker
      ensures broker.states == old(broker.states)
      ensures r == Ingest(old(client.client.buckets), u, env).response
      ensures client.client.buckets == Ingest(old(client.client.buckets), u, env).buckets
      ensures broker.messages == old(broker.messages) + Ingest(old(client.client.buckets), u, env).sent
    {
      if env.read.Failure? {
        return Failure(HttpError(500, env.read.error.message));
      }
      var name := UniqueFilename(env.uuid, u.filename);
      r := Store(client, name, env.read.value, u.contentType, env);
    }

    /** Lines 60-71: upload under the chosen name, then enqueue the job. */
    method Store(client: Storage.StorageService, name: string, content: Storage.Bytes, contentType: string, env: IngestEnv)
      returns (r: Result<Received, HttpError>)
      modifies client.client, broker
      ensures broker.states == old(broker.states)
      ensures r == Stored(old(client.client.buckets), name, content, env).response
      ensures client.client.buckets == Stored(old(client.client.buckets), name, content, env).buckets
      ensures broker.messages == old(broker.messages) + Stored(old(client.client.buckets), name, content, env).sent
    {
      ghost var put := Storage.Put(client.client.buckets, name, content, env.uploadFault);
      var path := client.UploadFile(content, name, contentType, env.uploadFault);
      assert path == put.path && client.client.buckets == put.buckets;
      if path.Failure? {
        return Failure(HttpError(500, path.error.message));
      }
      var task := broker.Delay(env.taskId, Job(name, path.value, env.now), env.enqueueFault);
      if task.Failure? {
        return Failure(HttpError(500, task.error.message));
      }
      return Success(Received("received", task.value, name, QueuedMessage));
    }
  }

  // ---------------------------------------------------------------- status query

  /** The body of `GET /api/v1/results/{task_id}`. */
  datatype StatusResponse =
    | Processing                                                    // {"status": "processing"}
    | Completed(result: seq<Detection>, filename: Option<string>)   // {"status": "completed", "result", ["filename"]}
    | Failed(error: TaskError)                                      // {"status": "failed", "error": str(result)}

  /** `task_result.result.get("detections", [])`. */
  function FallbackDetections(v: TaskReturn): seq<Detection>
  {
    if v.Succeeded? then v.detections else []
  }

  /**
   * `get_result`: not ready is processing; a returned value is completed,
   * from the task's first row when there is one and from the returned dict
   * otherwise; a raised exception is failed.
   */
  function GetResult(s: TaskState, rows: seq<Row>, taskId: string): (r: StatusResponse)
    ensures r.Processing? <==> !Ready(s)
    ensures r.Completed? <==> Successful(s)
    ensures r.Failed? <==> Ready(s) && !Successful(s)
    ensures r.Failed? ==> r.error == s.error
    ensures r.Completed? ==> (r.filename.Some? <==> FirstRow(rows, taskId).Some?)
    ensures r.Completed? && FirstRow(rows, taskId).Some? ==>
      r.result == FirstRow(rows, taskId).value.inferenceResult &&
      r.filename.value == FirstRow(rows, taskId).value.filename
    ensures r.Completed? && FirstRow(rows, taskId).None? ==> r.result == FallbackDetections(s.value)
  {
    if !Ready(s) then Processing
    else if Successful(s) then
      match FirstRow(rows, taskId)
      case Some(row) => Completed(row.inferenceResult, Some(row.filename))
      case None => Completed(FallbackDetections(s.value), None)
    else Failed(s.error)
  }

  /**
   * Dropped jobs and error dicts are values, so Celery calls them successful:
   * without a row they surface as completed with an empty result, never as
   * failed.
   */
  lemma ReturnedFailuresLookCompleted(v: TaskReturn, rows: seq<Row>, taskId: string)
    requires !v.Succeeded? && FirstRow(rows, taskId).None?
    ensures GetResult(Returned(v), rows, taskId) == Completed([], None)
  {
  }

  /** Only a raised exception is reported as failed. */
  lemma FailedOnlyWhenRaised(s: TaskState, rows: seq<Row>, taskId: string)
    ensures GetResult(s, rows, taskId).Failed? <==> s.Raised?
  {
  }

  /**
   * Polling never goes back: once the task is ready, more rows never make it
   * processing again, and an answer read from a row stays that answer.
   */
  lemma {:induction false} PollNeverRegresses(s: TaskState, rows: seq<Row>, more: seq<Row>, taskId: string)
    requires Ready(s)
    ensures !GetResult(s, rows + more, taskId).Processing?
    ensures GetResult(s, rows + more, taskId).Failed? == GetResult(s, rows, taskId).Failed?
    ensures GetResult(s, rows, taskId).Completed? && GetResult(s, rows, taskId).filename.Some? ==>
      GetResult(s, rows + more, taskId) == GetResult(s, rows, taskId)
  {
    if FirstRow(rows, taskId).Some? {
      FirstRowStable(rows, more, taskId);
    }
  }
}
