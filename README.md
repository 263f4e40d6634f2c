# Sentinel-AOI job pipeline, modelled in Dafny

This project models the backend job pipeline of the Sentinel-AOI inspection
system. A production-line camera posts an image. The API stores it in MinIO
under a fresh name and enqueues a Celery job. A worker admits or drops the job
by its queueing delay. It then checks the bucket, fetches and decodes the image,
runs the YOLO detector, maps its boxes to labelled detections and writes one
row to the result table. A status endpoint then reports the task as
processing, completed or failed.

As written, the worker's bucket check calls a method the storage wrapper does
not have (see "## Findings"). The resulting error is caught, so no fresh job
with a `/` in its path ever gets past that check. `Tasks.FetchAsWritten` and
`Tasks.ExecuteAsWritten` model that code exactly. The rest of the worker model
(`Tasks.Fetch` and everything built on it, marked "as intended" below) is the
program as evidently intended, with the check and the download going through
the wrapper's MinIO client.

Layout, one module per concern:

| file | module | models |
|---|---|---|
| wrappers.dfy | Wrappers | `Option`, `Result` |
| text.dfy | Text | the Python string operations the core relies on: `"/" in s`, `s.split("/", 1)`, `s.split(".")[-1]` |
| storage.dfy | Storage | `StorageService`, `_ensure_bucket_exists`, `upload_file` and the lazy `get_storage_client` singleton (backend/src/services/storage.py); the MinIO server as a `BlobStore` object holding a map of buckets |
| models.dfy | Models | the `inspection_results` row (backend/src/models.py); the database as an object holding the table and its sessions |
| celery.dfy | Celery | the job, the returned dict, the exceptions that escape the task, the result backend's task states, and the broker as an object with a queue and a state map |
| tasks.dfy | Tasks | `detect_image_task`: the pure decision chain (`Fetch`, `Detect`, `Execute`), the nested detection loop (`MapDetections`), the imperative run (`Run`, `Worker.DetectImageTask`, `Worker.Persist`) |
| main.dfy | Api | `upload_and_detect` (`Ingest`, `App.UploadAndDetect`) and `get_result` (`GetResult`) |
| pipeline.dfy | Pipeline | the three parts together, plus two end-to-end runs over freshly built objects |

Collaborators the code cannot see are parameters:
- every MinIO call that can raise is an `Option<Exc>` fault;
- `cv2.imdecode` and the YOLO model are total functions in `WorkerEnv`;
- `model.names` is a map;
- the clocks are integer milliseconds;
- `uuid4()` and the task id Celery assigns are strings;
- a failing `commit`, and the 60-second hard time limit firing, are flags.

Two decisions:
- The singleton, the MinIO server, the broker, the database and its sessions
  all change state in place, so they are classes with `modifies` clauses.
- The decision chains are functions, and each method is proved equal to them.

A dropped job is labelled `dropped` where the worker returns it
(backend/src/tasks.py:48). But a dropped job, like every error dict, is a
returned value, so Celery records the task as SUCCESS. `get_result`
(backend/src/main.py:80-96) then reports it as `completed` with `[]`, never as
dropped or failed (`Api.ReturnedFailuresLookCompleted`,
`Pipeline.StaleJobPollsCompletedEmpty`).

## Model

| member | source | states |
|---|---|---|
| Text.FirstIndexOf | backend/src/tasks.py:54 | the index of the first occurrence, with no occurrence before it; none exactly when the character does not occur |
| Text.SplitOnce | backend/src/tasks.py:54-56 | no split exactly when there is no separator; otherwise the string is left + separator + right, with no separator in left |
| Text.SplitOnceUnique | backend/src/tasks.py:56 | joining a separator-free left part to any right part and splitting once gives both parts back |
| Text.AfterLast | backend/src/main.py:56 | the text after the last dot: it holds no dot, it is a suffix of the name, and when shorter than the name it follows a dot; the whole name when there is no dot |
| Text.AfterLastOfJoin | backend/src/main.py:56-57 | any prefix, a dot, then a dot-free extension: taking the text after the last dot gives the extension back |
| Storage.ObjectPath | backend/src/services/storage.py:39 | the returned path `"<bucket>/<name>"`; its parts are stated by `Storage.ObjectPathParts` |
| Storage.ObjectPathParts | backend/src/services/storage.py:39 | the path is the bucket, a `/` right after it, then the object name, with nothing else |
| Storage.PathRoundTrip | backend/src/services/storage.py:39 | for a bucket without `/`, the worker's first-`/` split of `"bucket/name"` gives back bucket and name |
| Storage.DefaultBucketHasNoSlash | backend/src/config.py:10 | the default bucket `raw-images` has no `/`, so the round trip applies to it |
| Storage.EnsureBucket | backend/src/services/storage.py:18-25 | a present bucket is left alone; an absent one is created only when the check and the creation succeed; an S3Error is swallowed; raising happens exactly when a non-S3 error arises, and then the store is unchanged |
| Storage.EnsureBucketIdempotent | backend/src/services/storage.py:18-25 | after one clean run, a second run changes nothing whatever its faults; it raises only a non-S3 error from its own check, and that one exactly |
| Storage.Init | backend/src/services/storage.py:7-16 | construction succeeds exactly when the client is built and the bucket step raises nothing; a failed construction leaves the store as it was |
| Storage.Put | backend/src/services/storage.py:27-42 | the upload succeeds exactly when `put_object` does not raise and the bucket exists; it then returns `"raw-images/<name>"` and stores the bytes under the name; on failure it returns the raised error and leaves the store unchanged |
| Storage.PutKeepsOthers | backend/src/services/storage.py:32-38 | an upload changes only its own object: other buckets and other objects keep their contents |
| Storage.Get | backend/src/tasks.py:69-72 | as intended: a download succeeds exactly when it does not raise and the object exists, and returns its bytes |
| Storage.GetAfterPut | backend/src/services/storage.py:32-39 | downloading what was just uploaded gives back the uploaded bytes, at the returned path |
| Storage.StorageService.EnsureBucketExists | backend/src/services/storage.py:18-25 | the raised error and the new store are those of `EnsureBucket` on the old store |
| Storage.StorageService.UploadFile | backend/src/services/storage.py:27-42 | the returned path or error and the new store are those of `Put` on the old store |
| Storage.StorageGlobal.constructor | backend/src/services/storage.py:45 | the cached instance starts empty |
| Storage.StorageGlobal.GetStorageClient | backend/src/services/storage.py:47-61 | with a cached instance, returns it and touches nothing; without one, constructs (the store becomes `Init`'s); caches and returns a fresh instance exactly when construction raised nothing; otherwise returns null and keeps the cache empty, so the next call retries |
| Models.Materialize | backend/src/models.py:17-24 | one row per staged draft, in order, with fields copied, consecutive ids from the next free id and the commit time |
| Models.FirstRow | backend/src/main.py:83 | the row `.first()` returns: none exactly when no row has the task id, otherwise the earliest matching row, with no row of that id before it |
| Models.FirstIndex | backend/src/main.py:83 | `.first()` of the task-id filter: the earliest matching row; none exactly when no row matches |
| Models.FirstRowStable | backend/src/main.py:83 | appending rows never changes the first row of a task that already has one (the table gives no uniqueness) |
| Models.NoMatchOfAppend | backend/src/main.py:83 | two row sequences without a match for a task have none when appended |
| Models.MatchOfAppend | backend/src/main.py:83 | when only the later rows match, the first match of the whole table is the later one shifted by the earlier rows |
| Models.FirstRowOfAppend | backend/src/main.py:83 | for a task with no row, the first row after an append is the first among the appended rows |
| Models.FirstRowHasSmallestId | backend/src/main.py:83 | while keys increase, the earliest matching row has the smallest id among the task's rows |
| Models.MaterializeKeys | backend/src/models.py:19 | committing keeps primary keys strictly increasing and below the next free id |
| Models.Database.constructor | backend/src/models.py:26-27 | a freshly created database: an empty table with no sessions |
| Models.Database.OpenSession | backend/src/tasks.py:126 | `SessionLocal()` registers a fresh, open, empty session and leaves the table alone |
| Models.Session.Add | backend/src/tasks.py:134 | the draft is staged after those already staged |
| Models.Session.Commit | backend/src/tasks.py:135 | a failing commit raises and changes no table state; a succeeding one appends exactly the staged rows with ids from the next free id, advances it and empties the stage |
| Models.Session.Rollback | backend/src/tasks.py:139 | the stage is discarded |
| Models.Session.Close | backend/src/tasks.py:141 | the session is closed and deregistered, and the table is untouched |
| Celery.Ready | backend/src/main.py:77 | `ready()`: the task has returned or raised; what `get_result` reports for each case is stated by `Api.GetResult` |
| Celery.Successful | backend/src/main.py:80 | `successful()`: the task returned a value, whatever that value says; its consequence is `Api.ReturnedFailuresLookCompleted` |
| Celery.Broker.Delay | backend/src/main.py:63 | a failing publish raises and queues nothing; a succeeding one appends exactly one message with the job and returns its id; states are untouched |
| Celery.Broker.Record | backend/src/tasks.py:36-37 | the task's state is set and nothing else changes |
| Tasks.Stale | backend/src/tasks.py:44-46 | the drop condition: the wait exceeds 5000 ms, so exactly 5000 ms is admitted (`Tasks.ThresholdIsInclusive`) |
| Tasks.FlattenAppend | backend/src/tasks.py:107-108 | flattening distributes over concatenation of result lists |
| Tasks.FlattenAt | backend/src/tasks.py:107-108 | box j of result i sits at position (boxes of earlier results) + j of the flat list |
| Tasks.FlattenSplit | backend/src/tasks.py:107-108 | the flat list around box j of result i: the flat earlier results, the boxes of result i before j, box j, the rest of result i, then the flat later results |
| Tasks.FlattenOneMore | backend/src/tasks.py:107-108 | the flat list of the first i+1 results is that of the first i followed by result i |
| Tasks.Flatten | backend/src/tasks.py:107-108 | the boxes of all results in order: empty exactly when every result is empty, and one result's own boxes when there is one result |
| Tasks.Label | backend/src/tasks.py:108-117 | succeeds exactly when every class is in `model.names`; then one detection per box, in order, with label `names[cls]`, the box's confidence and bbox; otherwise fails with the first unknown class |
| Tasks.LabelFailureSticks | backend/src/tasks.py:112 | once a box has no label, later boxes cannot change the outcome (the KeyError ends the loop) |
| Tasks.LabelSnoc | backend/src/tasks.py:113-117 | labelling one more box appends its detection, or fails with its class |
| Tasks.MapDetections | backend/src/tasks.py:106-117 | the nested loop over results and their boxes computes exactly `Label` of the flattened boxes |
| Tasks.FetchAsWritten | backend/src/tasks.py:52-91 | as written: no `/` gives the invalid-path error; any `/` gives the bucket-check error carrying the AttributeError message |
| Tasks.DetectionsOf | backend/src/tasks.py:106-117 | the detections of all results: no results or only empty results give `[]` |
| Tasks.DetectionsOfSucceedsIff | backend/src/tasks.py:106-117 | labelling all results succeeds exactly when every box of every result has a class in `model.names` |
| Tasks.Decoded | backend/src/tasks.py:82-91 | the image exactly when the decoder returns one; a decode of `None` is the decode-failure reason; an exception is a storage failure |
| Tasks.Fetch | backend/src/tasks.py:52-91 | as intended: invalid path exactly when there is no `/`; a failing check or a missing bucket is reported so; success only when the check and the download succeed and the decoder returns an image of the stored bytes; a failed download (a raised fault or a missing object) is a storage failure carrying its message; a decode of `None` only for a stored object |
| Tasks.Detect | backend/src/tasks.py:94-123 | a raising model, an empty result list (`results[0]`) or an unknown class is an inference error; success exactly otherwise, with the mapped detections |
| Tasks.DetectOneBox | backend/src/tasks.py:106-117 | one result with one known box gives exactly one detection built from it |
| Tasks.Execute | backend/src/tasks.py:42-123 | as intended: dropped exactly when stale; success exactly when fresh, fetched and detected, carrying exactly the detections `Detect` mapped; a fetch failure's reason, and an inference failure's reason, is the returned error dict's |
| Tasks.ExecuteAsWritten | backend/src/tasks.py:42-123 | as written: never succeeds; agrees with `Execute` on stale jobs and on paths without `/`; every other job ends with the bucket-check error dict |
| Tasks.AsWrittenNeverDetects | backend/src/tasks.py:59-66 | as written, every fresh job with a `/` in its path ends with the bucket-check error dict and never succeeds |
| Tasks.FinalState | backend/src/tasks.py:36-41 | as intended: without a client the task raises the connection error; it raises exactly when there is no client or the time limit fires, and a kill with a client raises the 60-second time-limit error; dropped exactly when it runs and is stale; otherwise it returned `Execute`'s dict |
| Tasks.Written | backend/src/tasks.py:124-141 | as intended: at most one row; one exactly when the run returned success and the commit went through, carrying the task id, file name, path and detections |
| Tasks.NoClientRaisesFirst | backend/src/tasks.py:38-41 | without a client the outcome depends on no clock, store or collaborator, and no row is written |
| Tasks.StaleIgnoresCollaborators | backend/src/tasks.py:44-48 | a stale job is dropped whatever the store holds and whatever fetch, decode and inference would do; no row is written |
| Tasks.ThresholdIsInclusive | backend/src/tasks.py:46 | a delay of exactly 5000 ms is not dropped |
| Tasks.BadPathTouchesNothing | backend/src/tasks.py:54-55 | a path without `/` gets the invalid-path error whatever storage holds or does |
| Tasks.FetchSplitsAtFirstSlash | backend/src/tasks.py:56-86 | as intended: for a bucket without `/`, the object fetched is the one named by everything after the first `/`, further `/` included |
| Tasks.BucketFailureStopsFetch | backend/src/tasks.py:59-66 | as intended: a failing or negative bucket check fails the fetch regardless of download, decoder and model |
| Tasks.DecodeFailureNeverInfers | backend/src/tasks.py:82-91 | as intended: a failed fetch or decode returns its error dict whatever the model and names are, and writes no row |
| Tasks.InferenceFailureWritesNothing | backend/src/tasks.py:119-123 | as intended: an inference failure returns an inference error dict and writes no row |
| Tasks.CommitFailureSwallowed | backend/src/tasks.py:137-143 | as intended: a failing commit leaves the returned state, and so the detections, identical to a succeeding one, and writes no row |
| Tasks.Run | backend/src/tasks.py:42-123 | as intended: the imperative chain with its early returns computes exactly `Execute` |
| Tasks.Worker.DetectImageTask | backend/src/tasks.py:36-143 | as intended: obtains the client as `GetStorageClient` does; sets exactly this task's state to `FinalState`, appends exactly the rows of `Written`, queues nothing and leaves no session open |
| Tasks.Worker.Persist | backend/src/tasks.py:126-141 | builds the record, adds and commits it, rolls back on failure and always closes: one row when the commit succeeds, none when it fails, no session left open |
| Api.UniqueFilename | backend/src/main.py:56-57 | the stored name is the uuid, a dot, and then exactly the original's extension (the text after its last dot, or the whole name without a dot) |
| Api.UniqueFilenameKeepsOnlyExtension | backend/src/main.py:56-57 | for one uuid, two uploads get the same stored name exactly when their extensions agree: nothing else of the name survives |
| Api.Ingest | backend/src/main.py:52-71 | success exactly when the read, upload and enqueue all succeed; then received, the task id, the stored name and the queued message, and exactly one message for `(name, "raw-images/<name>", now)`; any failure is a 500 with nothing enqueued, carrying the message of the read error, else of the upload error, else of the enqueue error; the store is `Put`'s |
| Api.EnqueueFailureKeepsUpload | backend/src/main.py:60-71 | a refused enqueue answers 500 but leaves the uploaded image in storage |
| Api.App.UploadAndDetect | backend/src/main.py:39-71 | no client means a 503 with nothing read, stored or enqueued; otherwise the response, store and queue are `Ingest`'s |
| Api.App.Submit | backend/src/main.py:52-71 | the read, naming, upload and enqueue on an obtained client: response, store and queue are `Ingest`'s |
| Api.Stored | backend/src/main.py:60-71 | under a chosen name: success exactly when the upload and the enqueue succeed; the store is `Put`'s even when the enqueue fails; a failure is a 500 with the upload's message, else the enqueue's, and nothing sent; a success names the file and sends one message for the stored path |
| Api.App.Store | backend/src/main.py:60-71 | under a chosen name: a failed upload is a 500 with nothing enqueued; after a stored upload a refused enqueue is a 500 with nothing queued; otherwise one message for the stored path and the received response; the store is `Put`'s |
| Api.FallbackDetections | backend/src/main.py:95 | `.get("detections", [])` of the returned dict: a success dict's detections, and `[]` for a dropped job or an error dict (`Api.ReturnedFailuresLookCompleted`) |
| Api.GetResult | backend/src/main.py:73-98 | processing exactly when not ready; completed exactly when a value was returned, from the first row (with its filename) when there is one and from the returned dict's detections otherwise; failed exactly when an exception was raised, carrying it |
| Api.ReturnedFailuresLookCompleted | backend/src/main.py:91-96 | a dropped job or an error dict without a row is reported as completed with an empty result |
| Api.FailedOnlyWhenRaised | backend/src/main.py:97-98 | failed is reported exactly for raised exceptions, so dropped never is |
| Api.PollNeverRegresses | backend/src/main.py:77-90 | once ready, later rows never make a task processing again, never switch completed and failed, and never change an answer read from a row |
| Pipeline.UploadedImageReachesWorker | backend/src/main.py:56-63 | as intended: the path a successful upload enqueues leads the worker's fetch to exactly the uploaded bytes |
| Pipeline.UploadThenDetectOneBox | backend/src/tasks.py:52-117 | as intended: a fresh job for an upload whose image shows one known box returns exactly that detection |
| Pipeline.AsWrittenUploadPollsEmpty | backend/src/tasks.py:59-66 | as written, a fresh job of the shape the upload enqueues returns the bucket-check error and polls as completed with an empty result |
| Pipeline.FreshRunLeavesOneRow | backend/src/tasks.py:124-142 | as intended: on an empty table a successful run with a clean commit leaves one row, for the task and the job's file, and polls completed with the run's detections |
| Pipeline.PolledResultMatchesWorker | backend/src/main.py:80-96 | as intended: for a task with no earlier row, a successful run polls completed with exactly its detections, with the file name when the commit went through |
| Pipeline.StaleJobPollsCompletedEmpty | backend/src/tasks.py:44-48 | a stale job adds no row and polls as completed with an empty result |
| Pipeline.FailedIffRaised | backend/src/main.py:97-98 | a run polls as failed exactly when the worker had no client or the time limit fired |
| Pipeline.DelayedJobScenario | backend/src/tasks.py:44-48 | an upload whose job waits past the threshold polls as processing, then completed with an empty result, and the table stays empty |
| Pipeline.FreshJobScenario | backend/src/main.py:39-90 | as intended: an upload whose job is taken in time polls as processing, then completed with the one detection and the stored name, whose extension is kept, and the table holds one row for the task |

## Left out

- JSON encoding of the result column and of Celery messages is not modelled. Detections are stored and returned as values, so `json.dumps`/`json.loads` are the identity here.
- Floating point: timestamps are integer milliseconds, confidences and box coordinates are `real`. `float(...)` and `.tolist()` conversions are not modelled.
- The API stamps jobs with `time.time()` and the worker compares against `datetime.utcnow().timestamp()`. On a host not set to UTC these differ by the zone offset. That is a host property, so both clocks are one integer clock here.
- `int(box.cls[0])` truncation: classes are integers from the start.
- Tasks.FinalState: the hard time limit is modelled only as firing before the database step (`killed`), which yields `TimeLimitExceeded(60)` and no row. The case of a kill after a successful commit (a row, yet a failed state) is not modelled.
- Celery's own behaviour is not modelled: delivery, ordering, retries, exactly-once, result expiry, and how `time_limit` is enforced. The broker is a queue of messages plus a state map written by the worker.
- `AsyncResult(task_id)` is `Celery.Broker.StateOf`: an id the result backend has no entry for is PENDING, as Celery reports unknown ids. That is taken as given about Celery, not proved.
- The text of exceptions is modelled only as a message string. The error dicts' `reason` strings (Chinese text plus `str(e)`) are structured `Reason` values, so the exact wording is not modelled.
- `str(task_result.result)` for a failed task is the `TaskError` value itself, not its rendering.
- `get_result` opens a session only to read. Database errors while reading are not modelled, and the read session is not an object here.
- `.first()` without `order_by` is modelled as the earliest inserted row. The SQL standard does not fix that order; `Models.FirstRowHasSmallestId` shows that, while the keys increase, this is also the row an `ORDER BY id` would return.
- The bucket name is the default `raw-images`; the `MINIO_BUCKET_NAME` environment override and the other settings (backend/src/config.py) are not modelled.
- Import-time side effects are not modelled: choosing and warming up the YOLO model, PyTorch safe globals, `init_db()` at worker start (backend/src/tasks.py:12-34).
- The FastAPI `lifespan` hook and Prometheus instrumentation are not modelled (backend/src/main.py:15-33). `asynccontextmanager` is used there without ever being imported.
- `health_check` (backend/src/main.py:35-37) is a constant response and not part of the job pipeline.
- Console output is not modelled: every `print` and `traceback.print_exc()` in backend/src/tasks.py and backend/src/services/storage.py only writes logs, and nothing in the pipeline reads them.
- The response stream's `close`/`release_conn` (backend/src/tasks.py:78-79) is not modelled: no connection pool is represented.
- scripts/xml_to_yolo.py, frontend/app.py and simulate_camera.py are not part of this model: an offline dataset script, a UI and a load generator.

## Findings

| source | as written | input that shows it | evidently intended | confidence | as-written member | corrected member |
|---|---|---|---|---|---|---|
| backend/src/tasks.py:60 | `storage_client.bucket_exists(...)` and, at line 69, `storage_client.get_object(...)` are called on the `StorageService` wrapper `get_storage_client()` returns; the wrapper has neither method (only its `.client` is a MinIO client), so the AttributeError is caught at line 64 | any fresh job with a `/` in its path, e.g. the `raw-images/<uuid>.jpg` every successful upload enqueues: the task returns the bucket-check error dict and `get_result` reports completed with `[]` | call `storage_client.client.bucket_exists` / `.get_object`, so that an uploaded image is fetched, decoded and detected | high; not executed | Tasks.AsWrittenNeverDetects, Tasks.ExecuteAsWritten | Tasks.Fetch, Tasks.Execute, Pipeline.UploadedImageReachesWorker |
