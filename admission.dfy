/** The POST /api/v1/task handler: validate `user_id`, then push one record. */
module Admission {
  import opened Jobs
  import opened Queue

  const BadRequestStatus: nat := 400
  const RequiredMessage := "user_id is required"
  const QueuedMessage := "Task queued"

  datatype Response =
    | BadRequest(status: nat, error: string)
    | Accepted(message: string, jobId: JobId)

  /** The record the handler builds for a request, or None when it answers 400.
      `timestamp` and `jobId` stand for `Date.now()` and `uuidv4()`. */
  function Admit(req: Request, timestamp: nat, jobId: JobId): (r: Option<Job>)
    ensures r.Some? <==> Truthy(req.userId)
    ensures r.Some? ==>
              && r.value.userId == req.userId.value && r.value.userId != ""
              && r.value.timestamp == timestamp && r.value.jobId == jobId
  {
    if Truthy(req.userId) then Some(Job(req.userId.value, timestamp, jobId)) else None
  }

  method PostTask(queue: TaskQueue, req: Request, timestamp: nat, jobId: JobId) returns (resp: Response)
    modifies queue
    ensures !Truthy(req.userId) ==>
              resp == BadRequest(BadRequestStatus, RequiredMessage) && queue.items == old(queue.items)
    ensures Truthy(req.userId) ==>
              && resp == Accepted(QueuedMessage, jobId)
              && queue.items == [Encoded(Job(req.userId.value, timestamp, jobId))] + old(queue.items)
              && Pending(queue.items) == Pending(old(queue.items)) + [Encoded(Job(req.userId.value, timestamp, jobId))]
    ensures queue.items == match Admit(req, timestamp, jobId)
                           case None => old(queue.items)
                           case Some(job) => [Encoded(job)] + old(queue.items)
  {
    if !Truthy(req.userId) {
      return BadRequest(BadRequestStatus, RequiredMessage);
    }
    queue.LPush(Encoded(Job(req.userId.value, timestamp, jobId)));
    resp := Accepted(QueuedMessage, jobId);
  }
}
