/**
 * What travels through Celery: the job descriptor `detect_image_task.delay`
 * sends, the dict the task returns or the exception it raises, and the result
 * backend's per-task state. Delivery, ordering and the enforcement of the time
 * limit belong to Celery itself; the broker here only records what was sent
 * and what each task ended with.
 */
module Celery {
  import opened Wrappers
  import Storage
  import Models

  /** The arguments of `detect_image_task`; `submittedAt` is in milliseconds. */
  datatype Job = Job(fileName: string, storagePath: string, submittedAt: int)

  /** One published message: the task id Celery assigned and the job. */
  datatype Message = Message(taskId: string, job: Job)

  /** Why inference gave up. */
  datatype InferenceError =
    | ModelRaised(e: Storage.Exc)  // the model call itself raised
    | NoResults                    // `results[0]` of an empty result list
    | UnknownClass(cls: int)       // `model.names[cls]` has no entry

  /** The `reason` of an error dict returned by `detect_image_task`. */
  datatype Reason =
    | InvalidStoragePath(path: string)     // no `/` in the path
    | BucketMissing(bucket: string)        // `bucket_exists` said no
    | BucketCheckFailed(message: string)   // `bucket_exists` raised
    | DecodeFailed                         // `imdecode` gave `None`
    | StorageFailed(message: string)       // anything else raised while fetching or decoding
    | InferenceFailed(error: InferenceError)

  /** The dict `detect_image_task` returns. */
  datatype TaskReturn =
    | Dropped                                  // {"status": "dropped", "reason": "timeout"}
    | ErrorDict(reason: Reason)                // {"status": "error", "reason": ...}
    | Succeeded(detections: seq<Models.Detection>)  // {"status": "success", "detections": ...}

  /** The exceptions that escape `detect_image_task`. */
  datatype TaskError =
    | StorageConnectionFailed          // Exception("MinIO connection failed")
    | TimeLimitExceeded(seconds: nat)  // the hard `time_limit` killed the run

  /**
   * The result backend's view of a task. Celery treats every returned value
   * alike (state SUCCESS) and every raised exception alike (state FAILURE).
   */
  datatype TaskState = Pending | Returned(value: TaskReturn) | Raised(error: TaskError)

  /** `ready()`: the task has finished, by returning or by raising. */
  predicate Ready(s: TaskState)
  {
    !s.Pending?
  }

  /** `successful()`: the task finished by returning a value, whatever that value says. */
  predicate Successful(s: TaskState)
  {
    s.Returned?
  }

  /** Broker and result backend together. */
  class Broker {
    var messages: seq<Message>
    var states: map<string, TaskState>

    constructor ()
      ensures messages == [] && states == map[]
    {
      messages, states := [], map[];
    }

    /** The state `AsyncResult(id)` reports: an id the backend has no entry for is PENDING. */
    function StateOf(taskId: string): TaskState
      reads this
    {
      if taskId in states then states[taskId] else Pending
    }

    /**
     * `detect_image_task.delay(...)` publishing under the id Celery generated:
     * one message on success, none when the broker refuses.
     */
    method Delay(taskId: string, job: Job, fault: Option<Storage.Exc>) returns (r: Result<string, Storage.Exc>)
      modifies this
      ensures states == old(states)
      ensures fault.Some? ==> r == Failure(fault.value) && messages == old(messages)
      ensures fault.None? ==> r == Success(taskId) && messages == old(messages) + [Message(taskId, job)]
    {
      if fault.Some? {
        return Failure(fault.value);
      }
      messages := messages + [Message(taskId, job)];
      r := Success(taskId);
    }

    /** The worker recording how a task ended. */
    method Record(taskId: string, s: TaskState)
      modifies this
      ensures states == old(states)[taskId := s] && messages == old(messages)
    {
      states := states[taskId := s];
    }
  }
}
