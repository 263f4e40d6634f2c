/**
 * backend/src/tasks.py `detect_image_task`: the worker's step for one job.
 *
 * Up to the image the step is a chain of early returns (`Fetch`); inference
 * maps every box of every result to a detection (`MapDetections`, specified by
 * `Label` over `Flatten`); a successful run is written to the result table
 * through a session, and a failed write is swallowed. The clock, the decoder,
 * the model and every failure of a collaborator are fields of `WorkerEnv`.
 *
 * `FetchAsWritten` and `ExecuteAsWritten` are lines 52-91 exactly as written,
 * where the bucket check always raises; `Fetch`, and everything built on it,
 * is the step as evidently intended, talking to the wrapper's MinIO client.
 */
module Tasks {
  import opened Wrappers
  import Text
  import Storage
  import opened Models
  import opened Celery

  /** A job older than this when the worker takes it is dropped (5 seconds, in milliseconds). */
  const StalenessThresholdMs: int := 5000

  /** The task's hard `time_limit`, in seconds. */
  const TimeLimitSeconds: nat := 60

  /** One box of a YOLO result: `xyxy[0]`, `conf[0]` and the class index `int(cls[0])`. */
  datatype Box = Box(xyxy: seq<real>, conf: real, cls: int)

  /** A decoded image, as `cv2.imdecode` hands it to the model. */
  datatype Image = Image(pixels: Storage.Bytes)

  /** What the model call does: a list of results, each with its boxes, or an exception. */
  datatype Inference = Results(results: seq<seq<Box>>) | InferenceRaised(e: Storage.Exc)

  /** Everything outside the worker's own code that one run meets. */
  datatype WorkerEnv = WorkerEnv(
    now: int,                                              // worker clock, milliseconds
    bucketCheckFault: Option<Storage.Exc>,                 // `bucket_exists` raising
    fetchFault: Option<Storage.Exc>,                       // `get_object` / `read` raising
    decode: Storage.Bytes -> Result<Option<Image>, Storage.Exc>,  // `cv2.imdecode`
    infer: Image -> Inference,                             // the YOLO model
    names: map<int, string>,                               // `model.names`
    killed: bool,                                          // the time limit fired before the write
    commitFault: Option<Storage.Exc>,                      // `db.commit()` raising
    dbClock: int)                                          // `created_at` of a written row

  /** The admission check: a job waited more than the threshold. */
  predicate Stale(now: int, submittedAt: int)
  {
    now - submittedAt > StalenessThresholdMs
  }

  // ---------------------------------------------------------------- detections

  /** The boxes of all results, result by result, each in its own order. */
  function Flatten(results: seq<seq<Box>>): (r: seq<Box>)
    ensures (forall i :: 0 <= i < |results| ==> results[i] == []) <==> r == []
    ensures |results| == 1 ==> r == results[0]
  {
    if results == [] then [] else Flatten(results[..|results| - 1]) + results[|results| - 1]
  }

  lemma {:induction false} FlattenAppend(a: seq<seq<Box>>, b: seq<seq<Box>>)
    ensures Flatten(a + b) == Flatten(a) + Flatten(b)
    decreases |b|
  {
    if b == [] {
      assert a + b == a;
    } else {
      var b' := b[..|b| - 1];
      assert (a + b)[..|a + b| - 1] == a + b';
      FlattenAppend(a, b');
    }
  }

  /**
   * Box `j` of result `i` sits in the flattened list right after every box of
   * the results before `i` and the boxes of `i` before `j`.
   */
  lemma {:induction false} FlattenAt(results: seq<seq<Box>>, i: nat, j: nat)
    requires i < |results| && j < |results[i]|
    ensures |Flatten(results[..i])| + j < |Flatten(results)|
    ensures Flatten(results)[|Flatten(results[..i])| + j] == results[i][j]
  {
    assert results == results[..i] + [results[i]] + results[i + 1..];
    FlattenAppend(results[..i] + [results[i]], results[i + 1..]);
    FlattenAppend(results[..i], [results[i]]);
    assert Flatten([results[i]]) == results[i] by {
      assert [results[i]][..0] == [];
    }
  }

  /** Each box as `{"label": model.names[cls], "confidence": conf, "bbox": xyxy}`, or the first unknown class. */
  function Label(boxes: seq<Box>, names: map<int, string>): (r: Result<seq<Detection>, int>)
    ensures r.Success? <==> forall k :: 0 <= k < |boxes| ==> boxes[k].cls in names
    ensures r.Success? ==> |r.value| == |boxes|
    ensures r.Success? ==> forall k :: 0 <= k < |boxes| ==>
      r.value[k] == Detection(names[boxes[k].cls], boxes[k].conf, boxes[k].xyxy)
    ensures r.Failure? ==> r.error !in names
    ensures r.Failure? ==> exists k :: 0 <= k < |boxes| && boxes[k].cls == r.error &&
                                       (forall j :: 0 <= j < k ==> boxes[j].cls in names)
  {
    if boxes == [] then Success([])
    else
      var b := boxes[|boxes| - 1];
      match Label(boxes[..|boxes| - 1], names)
      case Failure(c) => Failure(c)
      case Success(d) =>
        if b.cls in names then Success(d + [Detection(names[b.cls], b.conf, b.xyxy)]) else Failure(b.cls)
  }

  /** Once a box has no label, later boxes do not change the outcome. */
  lemma {:induction false} LabelFailureSticks(xs: seq<Box>, ys: seq<Box>, names: map<int, string>)
    requires Label(xs, names).Failure?
    ensures Label(xs + ys, names) == Label(xs, names)
    decreases |ys|
  {
    if ys != [] {
      var ys' := ys[..|ys| - 1];
      assert (xs + ys)[..|xs + ys| - 1] == xs + ys';
      LabelFailureSticks(xs, ys', names);
    } else {
      assert xs + ys == xs;
    }
  }

  /** The detections of all results, in result order and then box order. */
  function DetectionsOf(results: seq<seq<Box>>, names: map<int, string>): (r: Result<seq<Detection>, int>)
    ensures (forall i :: 0 <= i < |results| ==> results[i] == []) ==> r == Success([])
  {
    Label(Flatten(results), names)
  }

  /** Labelling all results succeeds exactly when every box of every result has a name. */
  lemma {:induction false} DetectionsOfSucceedsIff(results: seq<seq<Box>>, names: map<int, string>)
    ensures DetectionsOf(results, names).Success? <==>
      forall i, j :: 0 <= i < |results| && 0 <= j < |results[i]| ==> results[i][j].cls in names
    decreases |results|
  {
    if results != [] {
      var front := results[..|results| - 1];
      var last := results[|results| - 1];
      DetectionsOfSucceedsIff(front, names);
      var flat := Flatten(front) + last;
      assert Flatten(results) == flat;
      assert (forall k :: 0 <= k < |flat| ==> flat[k].cls in names) <==>
        (forall k :: 0 <= k < |Flatten(front)| ==> Flatten(front)[k].cls in names) &&
        (forall k :: 0 <= k < |last| ==> last[k].cls in names)
      by {
        forall k | 0 <= k < |Flatten(front)| ensures flat[k] == Flatten(front)[k] { }
        forall k | 0 <= k < |last| ensures flat[|Flatten(front)| + k] == last[k] { }
      }
      assert (forall i, j :: 0 <= i < |results| && 0 <= j < |results[i]| ==> results[i][j].cls in names) <==>
        (forall i, j :: 0 <= i < |front| && 0 <= j < |front[i]| ==> front[i][j].cls in names) &&
        (forall k :: 0 <= k < |last| ==> last[k].cls in names)
      by {
        forall i | 0 <= i < |front| ensures front[i] == results[i] { }
      }
    }
  }

  /** Labelling one more box extends the list, or fails with that box's class. */
  lemma LabelSnoc(xs: seq<Box>, b: Box, names: map<int, string>)
    requires Label(xs, names).Success?
    ensures Label(xs + [b], names) ==
      if b.cls in names then Success(Label(xs, names).value + [Detection(names[b.cls], b.conf, b.xyxy)])
      else Failure(b.cls)
  {
    assert (xs + [b])[..|xs + [b]| - 1] == xs;
  }

  /** The nested loop of backend/src/tasks.py that appends one detection per box. */
  method MapDetections(results: seq<seq<Box>>, names: map<int, string>) returns (r: Result<seq<Detection>, int>)
    ensures r == DetectionsOf(results, names)
  {
    var detections: seq<Detection> := [];
    for i := 0 to |results|
      invariant Label(Flatten(results[..i]), names) == Success(detections)
    {
      ghost var before := Flatten(results[..i]);
      assert before + results[i][..0] == before;
      for j := 0 to |results[i]|
        invariant Label(before + results[i][..j], names) == Success(detections)
      {
        var box := results[i][j];
        ghost var done := before + results[i][..j];
        assert before + results[i][..j + 1] == done + [box];
        LabelSnoc(done, box, names);
        if box.cls !in names {
          FlattenSplit(results, i, j);
          LabelFailureSticks(done + [box], results[i][j + 1..] + Flatten(results[i + 1..]), names);
          return Failure(box.cls);
        }
        detections := detections + [Detection(names[box.cls], box.conf, box.xyxy)];
      }
      assert results[i][..|results[i]|] == results[i];
      FlattenOneMore(results, i);
    }
    assert results[..|results|] == results;
    return Success(detections);
  }

  /** The flattened list around box `j` of result `i`. */
  lemma FlattenSplit(results: seq<seq<Box>>, i: nat, j: nat)
    requires i < |results| && j < |results[i]|
    ensures Flatten(results) ==
      (Flatten(results[..i]) + results[i][..j] + [results[i][j]]) + (results[i][j + 1..] + Flatten(results[i + 1..]))
  {
    FlattenOneMore(results, i);
    assert results[i] == results[i][..j] + [results[i][j]] + results[i][j + 1..];
  }

  /** The flattened list splits after result `i`. */
  lemma {:induction false} FlattenOneMore(results: seq<seq<Box>>, i: nat)
    requires i < |results|
    ensures Flatten(results) == Flatten(results[..i + 1]) + Flatten(results[i + 1..])
    ensures Flatten(results[..i + 1]) == Flatten(results[..i]) + results[i]
  {
    var pre, post := results[..i + 1], results[i + 1..];
    assert results == pre + post;
    FlattenAppend(pre, post);
    assert pre[..|pre| - 1] == results[..i];
    assert pre[|pre| - 1] == results[i];
  }

  // ------------------------------------------------------------ fetch and decode

  /** The message of the `AttributeError` the worker meets at its bucket check. */
  const NoBucketExistsMessage: string := "'StorageService' object has no attribute 'bucket_exists'"

  /**
   * Lines 82-91: the downloaded bytes decoded to an image; `None` from the
   * decoder, or an exception while decoding, becomes the error reason.
   */
  function Decoded(env: WorkerEnv, data: Storage.Bytes): (r: Result<Image, Reason>)
    ensures r.Success? <==> env.decode(data).Success? && env.decode(data).value.Some?
    ensures r.Success? ==> r.value == env.decode(data).value.value
    ensures r == Failure(DecodeFailed) <==> env.decode(data) == Success(None)
    ensures env.decode(data).Failure? ==> r == Failure(StorageFailed(env.decode(data).error.message))
  {
    match env.decode(data)
    case Failure(e) => Failure(StorageFailed(e.message))
    case Success(None) => Failure(DecodeFailed)
    case Success(Some(img)) => Success(img)
  }

  /**
   * Lines 52-91 exactly as written: the worker asks the `StorageService`
   * wrapper, not its MinIO client, whether the bucket exists. The wrapper has
   * no such method, so once the path has a `/` the check always raises, and
   * the handler at line 64 turns that into an error dict.
   */
  function FetchAsWritten(b: Storage.Buckets, path: string, env: WorkerEnv): (r: Result<Image, Reason>)
    ensures '/' !in path ==> r == Failure(InvalidStoragePath(path))
    ensures '/' in path ==> r == Failure(BucketCheckFailed(NoBucketExistsMessage))
  {
    match Text.SplitOnce(path, '/')
    case None => Failure(InvalidStoragePath(path))
    case Some(_) => Failure(BucketCheckFailed(NoBucketExistsMessage))
  }

  /**
   * Lines 52-91 as evidently intended, talking to the MinIO client
   * (`storage_client.client`): split the path at its first `/`, check the
   * bucket, download the object and decode it. Each failure becomes the error
   * reason the handlers give it.
   */
  function Fetch(b: Storage.Buckets, path: string, env: WorkerEnv): (r: Result<Image, Reason>)
    ensures r == Failure(InvalidStoragePath(path)) <==> '/' !in path
    ensures r.Success? ==>
      var (bucket, name) := Text.SplitOnce(path, '/').value;
      && env.bucketCheckFault.None? && env.fetchFault.None?
      && bucket in b && name in b[bucket]
      && env.decode(b[bucket][name]) == Success(Some(r.value))
    ensures '/' in path && env.bucketCheckFault.Some? ==>
      r == Failure(BucketCheckFailed(env.bucketCheckFault.value.message))
    ensures '/' in path && env.bucketCheckFault.None? && Text.SplitOnce(path, '/').value.0 !in b ==>
      r == Failure(BucketMissing(Text.SplitOnce(path, '/').value.0))
    ensures '/' in path && env.bucketCheckFault.None? && Text.SplitOnce(path, '/').value.0 in b ==>
      var (bucket, name) := Text.SplitOnce(path, '/').value;
      Storage.Get(b, bucket, name, env.fetchFault).Failure? ==>
        r == Failure(StorageFailed(Storage.Get(b, bucket, name, env.fetchFault).error.message))
    ensures r == Failure(DecodeFailed) ==>
      var (bucket, name) := Text.SplitOnce(path, '/').value;
      bucket in b && name in b[bucket] && env.decode(b[bucket][name]) == Success(None)
  {
    match Text.SplitOnce(path, '/')
    case None => Failure(InvalidStoragePath(path))
    case Some((bucket, name)) =>
      if env.bucketCheckFault.Some? then Failure(BucketCheckFailed(env.bucketCheckFault.value.message))
      else if bucket !in b then Failure(BucketMissing(bucket))
      else
        match Storage.Get(b, bucket, name, env.fetchFault)
        case Failure(e) => Failure(StorageFailed(e.message))
        case Success(data) => Decoded(env, data)
  }

  // ------------------------------------------------------------------- inference

  /** Lines 94-123: run the model and map its boxes; any exception becomes an error reason. */
  function Detect(img: Image, env: WorkerEnv): (r: Result<seq<Detection>, Reason>)
    ensures env.infer(img).InferenceRaised? ==> r == Failure(InferenceFailed(ModelRaised(env.infer(img).e)))
    ensures r.Success? <==>
      env.infer(img).Results? && |env.infer(img).results| > 0 &&
      DetectionsOf(env.infer(img).results, env.names).Success?
    ensures r.Success? ==> r.value == DetectionsOf(env.infer(img).results, env.names).value
    ensures r.Failure? ==> r.error.InferenceFailed?
  {
    match env.infer(img)
    case InferenceRaised(e) => Failure(InferenceFailed(ModelRaised(e)))
    case Results(rs) =>
      if |rs| == 0 then Failure(InferenceFailed(NoResults))
      else
        match DetectionsOf(rs, env.names)
        case Failure(c) => Failure(InferenceFailed(UnknownClass(c)))
        case Success(d) => Success(d)
  }

  /** One result holding one box of a known class yields exactly that detection. */
  lemma DetectOneBox(img: Image, env: WorkerEnv, box: Box)
    requires env.infer(img) == Results([[box]]) && box.cls in env.names
    ensures Detect(img, env) == Success([Detection(env.names[box.cls], box.conf, box.xyxy)])
  {
    var d := Detection(env.names[box.cls], box.conf, box.xyxy);
    LabelSnoc([], box, env.names);
    assert Label([], env.names).value + [d] == [d];
    assert Flatten([[box]]) == [box];
  }

  // ------------------------------------------------------------------ the step

  /** What the task returns once a storage client was obtained and the time limit holds. */
  function Execute(b: Storage.Buckets, job: Job, env: WorkerEnv): (ret: TaskReturn)
    ensures ret == Dropped <==> Stale(env.now, job.submittedAt)
    ensures ret.Succeeded? <==> (!Stale(env.now, job.submittedAt) &&
      Fetch(b, job.storagePath, env).Success? && Detect(Fetch(b, job.storagePath, env).value, env).Success?)
    ensures ret.ErrorDict? && !Stale(env.now, job.submittedAt) && Fetch(b, job.storagePath, env).Failure? ==>
      ret.reason == Fetch(b, job.storagePath, env).error
    ensures ret.Succeeded? ==> ret.detections == Detect(Fetch(b, job.storagePath, env).value, env).value
    ensures !Stale(env.now, job.submittedAt) && Fetch(b, job.storagePath, env).Success? &&
            Detect(Fetch(b, job.storagePath, env).value, env).Failure? ==>
      ret == ErrorDict(Detect(Fetch(b, job.storagePath, env).value, env).error)
  {
    if Stale(env.now, job.submittedAt) then Dropped
    else
      match Fetch(b, job.storagePath, env)
      case Failure(reason) => ErrorDict(reason)
      case Success(img) =>
        match Detect(img, env)
        case Failure(reason) => ErrorDict(reason)
        case Success(d) => Succeeded(d)
  }

  /** `Execute` with the worker's bucket check exactly as written. */
  function ExecuteAsWritten(b: Storage.Buckets, job: Job, env: WorkerEnv): (ret: TaskReturn)
    ensures !ret.Succeeded?
    ensures Stale(env.now, job.submittedAt) || '/' !in job.storagePath ==> ret == Execute(b, job, env)
    ensures !Stale(env.now, job.submittedAt) && '/' in job.storagePath ==>
      ret == ErrorDict(BucketCheckFailed(NoBucketExistsMessage))
  {
    if Stale(env.now, job.submittedAt) then Dropped
    else
      match FetchAsWritten(b, job.storagePath, env)
      case Failure(reason) => ErrorDict(reason)
      case Success(img) =>
        match Detect(img, env)
        case Failure(reason) => ErrorDict(reason)
        case Success(d) => Succeeded(d)
  }

  /**
   * As written, no job ever reaches the model: every fresh job with a
   * well-formed path ends with the bucket-check error dict, whatever the store
   * holds and whatever the decoder and the model would do.
   */
  lemma AsWrittenNeverDetects(b: Storage.Buckets, job: Job, env: WorkerEnv)
    requires !Stale(env.now, job.submittedAt) && '/' in job.storagePath
    ensures ExecuteAsWritten(b, job, env) == ErrorDict(BucketCheckFailed(NoBucketExistsMessage))
    ensures !ExecuteAsWritten(b, job, env).Succeeded?
  {
  }

  /** The state the result backend records for a run. */
  function FinalState(clientOk: bool, b: Storage.Buckets, job: Job, env: WorkerEnv): (s: TaskState)
    ensures !clientOk ==> s == Raised(StorageConnectionFailed)
    ensures s.Raised? <==> !clientOk || env.killed
    ensures clientOk && env.killed ==> s == Raised(TimeLimitExceeded(TimeLimitSeconds))
    ensures s == Returned(Dropped) <==> clientOk && !env.killed && Stale(env.now, job.submittedAt)
    ensures s.Returned? ==> s.value == Execute(b, job, env)
  {
    if !clientOk then Raised(StorageConnectionFailed)
    else if env.killed then Raised(TimeLimitExceeded(TimeLimitSeconds))
    else Returned(Execute(b, job, env))
  }

  /** The rows a run commits: one for a successful run whose commit went through, none otherwise. */
  function Written(clientOk: bool, b: Storage.Buckets, taskId: string, job: Job, env: WorkerEnv): (w: seq<Draft>)
    ensures |w| <= 1
    ensures w != [] <==>
      FinalState(clientOk, b, job, env).Returned? && FinalState(clientOk, b, job, env).value.Succeeded? &&
      env.commitFault.None?
    ensures w != [] ==>
      w[0] == Draft(taskId, job.fileName, job.storagePath, FinalState(clientOk, b, job, env).value.detections)
  {
    match FinalState(clientOk, b, job, env)
    case Returned(Succeeded(d)) =>
      if env.commitFault.None? then [Draft(taskId, job.fileName, job.storagePath, d)] else []
    case _ => []
  }

  /**
   * Without a storage client the task raises before anything else happens:
   * the outcome does not depend on the clock, the store or any collaborator.
   */
  lemma NoClientRaisesFirst(b: Storage.Buckets, b': Storage.Buckets, taskId: string, job: Job, env: WorkerEnv, env': WorkerEnv)
    ensures FinalState(false, b, job, env) == FinalState(false, b', job, env') == Raised(StorageConnectionFailed)
    ensures Written(false, b, taskId, job, env) == []
  {
  }

  /**
   * A stale job is dropped without fetching, decoding or inferring: its
   * outcome is the same whatever the store holds and whatever those
   * collaborators would do, and no row is written.
   */
  lemma StaleIgnoresCollaborators(b: Storage.Buckets, b': Storage.Buckets, taskId: string, job: Job, env: WorkerEnv, env': WorkerEnv)
    requires Stale(env.now, job.submittedAt) && env'.now == env.now && env'.killed == env.killed
    ensures FinalState(true, b, job, env) == FinalState(true, b', job, env')
    ensures !env.killed ==> FinalState(true, b, job, env) == Returned(Dropped)
    ensures Written(true, b, taskId, job, env) == []
  {
  }

  /** A job waiting exactly the threshold is still admitted. */
  lemma ThresholdIsInclusive(b: Storage.Buckets, job: Job, env: WorkerEnv)
    requires env.now - job.submittedAt == StalenessThresholdMs
    ensures Execute(b, job, env) != Dropped
  {
  }

  /** A path without `/` is refused before storage is consulted. */
  lemma BadPathTouchesNothing(b: Storage.Buckets, b': Storage.Buckets, job: Job, env: WorkerEnv, env': WorkerEnv)
    requires '/' !in job.storagePath && !Stale(env.now, job.submittedAt) && env'.now == env.now
    ensures Execute(b, job, env) == Execute(b', job, env') == ErrorDict(InvalidStoragePath(job.storagePath))
  {
  }

  /**
   * The path splits at its first `/` only: for a bucket without `/`, the
   * object fetched is the one named by everything after it.
   */
  lemma FetchSplitsAtFirstSlash(b: Storage.Buckets, bucket: string, name: string, env: WorkerEnv)
    requires '/' !in bucket && env.bucketCheckFault.None? && env.fetchFault.None?
    requires bucket in b && name in b[bucket]
    ensures Fetch(b, Storage.ObjectPath(bucket, name), env) == Decoded(env, b[bucket][name])
  {
    Storage.PathRoundTrip(bucket, name);
  }

  /**
   * A missing bucket, or a failing check, ends the run there: the object is
   * not downloaded and neither the decoder nor the model is consulted.
   */
  lemma BucketFailureStopsFetch(b: Storage.Buckets, job: Job, env: WorkerEnv, env': WorkerEnv)
    requires '/' in job.storagePath
    requires env.bucketCheckFault.Some? || Text.SplitOnce(job.storagePath, '/').value.0 !in b
    requires env'.bucketCheckFault == env.bucketCheckFault && env'.now == env.now
    ensures Fetch(b, job.storagePath, env) == Fetch(b, job.storagePath, env')
    ensures Fetch(b, job.storagePath, env).Failure?
  {
  }

  /** An undecodable image never reaches the model, and no row is written. */
  lemma DecodeFailureNeverInfers(b: Storage.Buckets, taskId: string, job: Job, env: WorkerEnv, env': WorkerEnv)
    requires !Stale(env.now, job.submittedAt) && !Fetch(b, job.storagePath, env).Success?
    requires env' == env.(infer := env'.infer, names := env'.names)
    ensures Execute(b, job, env) == Execute(b, job, env') == ErrorDict(Fetch(b, job.storagePath, env).error)
    ensures Written(true, b, taskId, job, env) == []
  {
  }

  /** An inference failure returns an error dict and writes no row. */
  lemma InferenceFailureWritesNothing(b: Storage.Buckets, taskId: string, job: Job, env: WorkerEnv)
    requires !Stale(env.now, job.submittedAt) && Fetch(b, job.storagePath, env).Success?
    requires Detect(Fetch(b, job.storagePath, env).value, env).Failure?
    ensures Execute(b, job, env).ErrorDict? && Execute(b, job, env).reason.InferenceFailed?
    ensures Written(true, b, taskId, job, env) == []
  {
  }

  /**
   * A failed commit is swallowed: the task returns the same success dict with
   * the same detections as when the commit goes through, and adds no row.
   */
  lemma CommitFailureSwallowed(b: Storage.Buckets, taskId: string, job: Job, env: WorkerEnv, e: Storage.Exc)
    ensures FinalState(true, b, job, env.(commitFault := Some(e))) == FinalState(true, b, job, env.(commitFault := None))
    ensures Written(true, b, taskId, job, env.(commitFault := Some(e))) == []
  {
  }

  /** Lines 42-123 as the worker runs them, up to the database write. */
  method Run(b: Storage.Buckets, job: Job, env: WorkerEnv) returns (ret: TaskReturn)
    ensures ret == Execute(b, job, env)
  {
    if Stale(env.now, job.submittedAt) {
      return Dropped;
    }
    var image := Fetch(b, job.storagePath, env);
    if image.Failure? {
      return ErrorDict(image.error);
    }
    var inference := env.infer(image.value);
    if inference.InferenceRaised? {
      return ErrorDict(InferenceFailed(ModelRaised(inference.e)));
    }
    if |inference.results| == 0 {
      return ErrorDict(InferenceFailed(NoResults));
    }
    var mapped := MapDetections(inference.results, env.names);
    if mapped.Failure? {
      return ErrorDict(InferenceFailed(UnknownClass(mapped.error)));
    }
    return Succeeded(mapped.value);
  }

  // ------------------------------------------------------------------ the worker

  /** One worker process: its own storage global, the broker and the result database. */
  class Worker {
    const storage: Storage.StorageGlobal
    const broker: Broker
    const db: Database

    ghost predicate Valid()
      reads this, storage, db
    {
      storage.Valid() && db.Valid()
    }

    constructor (storage: Storage.StorageGlobal, broker: Broker, db: Database)
      requires storage.Valid() && db.Valid()
      ensures this.storage == storage && this.broker == broker && this.db == db && Valid()
    {
      this.storage, this.broker, this.db := storage, broker, db;
    }

    /**
     * `detect_image_task` for the task `taskId`: records exactly one final
     * state for it, appends at most one row, touches storage only through
     * `get_storage_client`, and hands back every session it opens.
     */
    method DetectImageTask(taskId: string, job: Job, init: Storage.InitFaults, env: WorkerEnv)
      requires Valid()
      modifies storage, storage.server, broker, db
      ensures Valid()
      ensures storage.server.buckets ==
        if old(storage.instance) != null then old(storage.server.buckets)
        else Storage.Init(old(storage.server.buckets), init).buckets
      ensures old(storage.instance) != null ==> storage.instance == old(storage.instance)
      ensures old(storage.instance) == null ==>
        (storage.instance != null <==> Storage.Init(old(storage.server.buckets), init).raised.None?)
      ensures broker.messages == old(broker.messages)
      ensures broker.states ==
        old(broker.states)[taskId := FinalState(storage.instance != null, storage.server.buckets, job, env)]
      ensures db.rows == old(db.rows) +
        Materialize(Written(storage.instance != null, storage.server.buckets, taskId, job, env), old(db.nextId), env.dbClock)
      ensures db.sessions == old(db.sessions)
    {
      var client := storage.GetStorageClient(init);
      if client == null {
        broker.Record(taskId, Raised(StorageConnectionFailed));
        return;
      }
      var ret := Run(client.client.buckets, job, env);
      if env.killed {
        broker.Record(taskId, Raised(TimeLimitExceeded(TimeLimitSeconds)));
        return;
      }
      if ret.Succeeded? {
        Persist(Draft(taskId, job.fileName, job.storagePath, ret.detections), env);
      }
      broker.Record(taskId, Returned(ret));
    }

    /**
     * Lines 126-141: add the row and commit; on failure roll back and carry
     * on; close the session either way.
     */
    method Persist(d: Draft, env: WorkerEnv)
      requires db.Valid()
      modifies db
      ensures db.Valid() && db.sessions == old(db.sessions)
      ensures db.rows == old(db.rows) + Materialize(if env.commitFault.None? then [d] else [], old(db.nextId), env.dbClock)
    {
      var session := db.OpenSession();
      session.Add(d);
      var raised := session.Commit(env.commitFault, env.dbClock);
      if raised.Some? {
        session.Rollback();
      }
      session.Close();
    }
  }
}
