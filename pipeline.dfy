/**
 * The three parts together: what `upload_and_detect` enqueues is what
 * `detect_image_task` fetches (with the bucket check as intended), and what
 * the worker records is what `get_result` reports.
 */
module Pipeline {
  import opened Wrappers
  import Text
  import Storage
  import opened Models
  import opened Celery
  import opened Tasks
  import opened Api

  /**
   * The `storage_path` a successful upload enqueues leads the worker back to
   * the uploaded bytes: with storage answering, it decodes exactly them.
   */
  lemma UploadedImageReachesWorker(b: Storage.Buckets, u: Upload, ienv: IngestEnv, wenv: WorkerEnv)
    requires Ingest(b, u, ienv).response.Success?
    requires wenv.bucketCheckFault.None? && wenv.fetchFault.None?
    ensures |Ingest(b, u, ienv).sent| == 1
    ensures Fetch(Ingest(b, u, ienv).buckets, Ingest(b, u, ienv).sent[0].job.storagePath, wenv)
            == Decoded(wenv, ienv.read.value)
  {
    var name := UniqueFilename(ienv.uuid, u.filename);
    var o := Ingest(b, u, ienv);
    Storage.DefaultBucketHasNoSlash();
    Storage.GetAfterPut(b, name, ienv.read.value);
    FetchSplitsAtFirstSlash(o.buckets, Storage.BucketName, name, wenv);
  }

  /**
   * Upload and worker together: when a fresh job's image decodes and the
   * model finds one box of a known class, the worker returns exactly that
   * detection for the job the upload enqueued.
   */
  lemma UploadThenDetectOneBox(b: Storage.Buckets, u: Upload, ienv: IngestEnv, wenv: WorkerEnv, img: Image, box: Box)
    requires Ingest(b, u, ienv).response.Success?
    requires wenv.bucketCheckFault.None? && wenv.fetchFault.None?
    requires !Stale(wenv.now, ienv.now)
    requires wenv.decode(ienv.read.value) == Success(Some(img)) && wenv.infer(img) == Results([[box]])
    requires box.cls in wenv.names
    ensures |Ingest(b, u, ienv).sent| == 1
    ensures Execute(Ingest(b, u, ienv).buckets, Ingest(b, u, ienv).sent[0].job, wenv)
            == Succeeded([Detection(wenv.names[box.cls], box.conf, box.xyxy)])
  {
    var o := Ingest(b, u, ienv);
    var job := o.sent[0].job;
    UploadedImageReachesWorker(b, u, ienv, wenv);
    assert Fetch(o.buckets, job.storagePath, wenv) == Success(img);
    DetectOneBox(img, wenv, box);
  }

  /**
   * With the bucket check as written, a job of the shape `upload_and_detect`
   * enqueues never gets that far: it ends with the bucket-check error dict
   * and, with no row for it, polls as completed with an empty result.
   */
  lemma AsWrittenUploadPollsEmpty(b: Storage.Buckets, name: string, submittedAt: int, wenv: WorkerEnv, rows: seq<Row>, taskId: string)
    requires !Stale(wenv.now, submittedAt)
    requires FirstRow(rows, taskId).None?
    ensures var job := Job(name, Storage.ObjectPath(Storage.BucketName, name), submittedAt);
      && ExecuteAsWritten(b, job, wenv) == ErrorDict(BucketCheckFailed(NoBucketExistsMessage))
      && GetResult(Returned(ExecuteAsWritten(b, job, wenv)), rows, taskId) == Completed([], None)
  {
    var job := Job(name, Storage.ObjectPath(Storage.BucketName, name), submittedAt);
    assert job.storagePath[|Storage.BucketName|] == '/';
    AsWrittenNeverDetects(b, job, wenv);
    ReturnedFailuresLookCompleted(ExecuteAsWritten(b, job, wenv), rows, taskId);
  }

  /** The rows a worker run leaves in the table. */
  function RowsAfter(rows: seq<Row>, nextId: nat, b: Storage.Buckets, taskId: string, job: Job, env: WorkerEnv): seq<Row>
  {
    rows + Materialize(Written(true, b, taskId, job, env), nextId, env.dbClock)
  }

  /**
   * For a task with no earlier row, a successful run polls as completed with
   * exactly the detections it computed: read from its row when the commit
   * went through (with the job's file name), from the returned dict when the
   * commit failed.
   */
  lemma {:induction false} PolledResultMatchesWorker(rows: seq<Row>, nextId: nat, b: Storage.Buckets, taskId: string, job: Job, env: WorkerEnv)
    requires FirstRow(rows, taskId).None?
    requires Execute(b, job, env).Succeeded? && !env.killed
    ensures GetResult(FinalState(true, b, job, env), RowsAfter(rows, nextId, b, taskId, job, env), taskId)
      == Completed(Execute(b, job, env).detections, if env.commitFault.None? then Some(job.fileName) else None)
  {
    var added := Materialize(Written(true, b, taskId, job, env), nextId, env.dbClock);
    FirstRowOfAppend(rows, added, taskId);
    if env.commitFault.None? {
      assert added[0].taskId == taskId;
      assert FirstIndex(added, taskId) == Some(0);
    } else {
      assert added == [];
    }
  }

  /**
   * On an empty table, a successful run with a clean commit leaves exactly one
   * row, for the task and the job's file, and polls as completed from it.
   */
  lemma FreshRunLeavesOneRow(nextId: nat, b: Storage.Buckets, taskId: string, job: Job, env: WorkerEnv)
    requires Execute(b, job, env).Succeeded? && !env.killed && env.commitFault.None?
    ensures var rows := RowsAfter([], nextId, b, taskId, job, env);
      && |rows| == 1 && rows[0].taskId == taskId && rows[0].filename == job.fileName
      && GetResult(FinalState(true, b, job, env), rows, taskId) == Completed(Execute(b, job, env).detections, Some(job.fileName))
  {
    PolledResultMatchesWorker([], nextId, b, taskId, job, env);
  }

  /**
   * A stale job adds no row and, unless the task already had one, polls as
   * completed with an empty result: the drop is never reported as such.
   */
  lemma StaleJobPollsCompletedEmpty(rows: seq<Row>, nextId: nat, b: Storage.Buckets, taskId: string, job: Job, env: WorkerEnv)
    requires Stale(env.now, job.submittedAt) && !env.killed
    requires FirstRow(rows, taskId).None?
    ensures RowsAfter(rows, nextId, b, taskId, job, env) == rows
    ensures GetResult(FinalState(true, b, job, env), RowsAfter(rows, nextId, b, taskId, job, env), taskId) == Completed([], None)
  {
    assert Materialize([], nextId, env.dbClock) == [];
  }

  /** A poll reports failed exactly when the worker had no storage client or ran out of time. */
  lemma FailedIffRaised(rows: seq<Row>, nextId: nat, clientOk: bool, b: Storage.Buckets, taskId: string, job: Job, env: WorkerEnv)
    ensures GetResult(FinalState(clientOk, b, job, env), rows, taskId).Failed? <==> !clientOk || env.killed
  {
  }

  /**
   * A job held in the queue past the threshold: right after submission it
   * polls as processing; after the worker takes it, as completed with an
   * empty result; and no row is written for it.
   */
  method DelayedJobScenario(content: Storage.Bytes, wenv: WorkerEnv) returns (before: StatusResponse, after: StatusResponse, table: seq<Row>)
    requires Stale(wenv.now, 1000) && !wenv.killed
    ensures before == Processing
    ensures after == Completed([], None)
    ensures table == []
  {
    var server := new Storage.BlobStore(map[Storage.BucketName := map[]]);
    var apiGlobal := new Storage.StorageGlobal(server);
    var workerGlobal := new Storage.StorageGlobal(server);
    var broker := new Broker();
    var db := new Database();
    var api := new App(apiGlobal, broker);
    var noFaults := Storage.InitFaults(None, None, None);
    var ienv := IngestEnv(Success(content), "0b1c", None, 1000, "task-1", None);
    var received := api.UploadAndDetect(Upload("part.jpg", "image/jpeg"), noFaults, ienv);
    assert |broker.messages| == 1;
    before := GetResult(broker.StateOf("task-1"), db.rows, "task-1");
    var worker := new Worker(workerGlobal, broker, db);
    var job := broker.messages[0].job;
    worker.DetectImageTask("task-1", job, noFaults, wenv);
    after := GetResult(broker.StateOf("task-1"), db.rows, "task-1");
    table := db.rows;
  }

  /**
   * A fresh job with one box the model knows: it polls as processing, then
   * as completed with that one detection and the stored file name, and the
   * table holds exactly one row for it.
   */
  method FreshJobScenario(content: Storage.Bytes, wenv: WorkerEnv, img: Image, box: Box)
    returns (name: string, before: StatusResponse, after: StatusResponse, table: seq<Row>)
    requires !Stale(wenv.now, 1000) && !wenv.killed
    requires wenv.bucketCheckFault.None? && wenv.fetchFault.None? && wenv.commitFault.None?
    requires wenv.decode(content) == Success(Some(img)) && wenv.infer(img) == Results([[box]])
    requires box.cls in wenv.names
    ensures before == Processing
    ensures after == Completed([Detection(wenv.names[box.cls], box.conf, box.xyxy)], Some(name))
    ensures |table| == 1 && table[0].taskId == "task-1" && table[0].filename == name
    ensures Text.AfterLast(name, '.') == "jpg"
  {
    var server := new Storage.BlobStore(map[Storage.BucketName := map[]]);
    var apiGlobal := new Storage.StorageGlobal(server);
    var workerGlobal := new Storage.StorageGlobal(server);
    var broker := new Broker();
    var db := new Database();
    var api := new App(apiGlobal, broker);
    var noFaults := Storage.InitFaults(None, None, None);
    var ienv := IngestEnv(Success(content), "0b1c", None, 1000, "task-1", None);
    ghost var b0 := server.buckets;
    var u := Upload("part.jpg", "image/jpeg");
    var received := api.UploadAndDetect(u, noFaults, ienv);
    name := UniqueFilename("0b1c", "part.jpg");
    assert Text.AfterLast("part.jpg", '.') == "jpg";
    UploadThenDetectOneBox(b0, u, ienv, wenv, img, box);
    before := GetResult(broker.StateOf("task-1"), db.rows, "task-1");
    var worker := new Worker(workerGlobal, broker, db);
    var job := broker.messages[0].job;
    ghost var b1 := server.buckets;
    ghost var next0 := db.nextId;
    worker.DetectImageTask("task-1", job, noFaults, wenv);
    FreshRunLeavesOneRow(next0, b1, "task-1", job, wenv);
    assert db.rows == RowsAfter([], next0, b1, "task-1", job, wenv);
    after := GetResult(broker.StateOf("task-1"), db.rows, "task-1");
    table := db.rows;
  }
}
