/** The records that travel from the admission handler to the dispatch loop
    through the Redis list "taskQueue". */
module Jobs {

  datatype Option<+T> = None | Some(value: T)

  /** The `user_id` a job is throttled by. */
  type UserId = string

  /** The uuid v4 string the admission handler assigns; an opaque token here. */
  type JobId = string

  /** The record the handler serialises: `{ user_id, timestamp, jobId }`,
      `timestamp` being the wall-clock milliseconds at admission. */
  datatype Job = Job(userId: UserId, timestamp: nat, jobId: JobId)

  /** An element of the list as the dispatch loop reads it back. `Encoded` is
      text that parses to a value the destructuring accepts; a field it lacks
      reads as `undefined`, so a record without `user_id` is the job of the
      user "undefined", the key it is throttled and recorded under. `Garbled`
      is text on which parsing throws, or the text `null`, on which the
      destructuring throws. */
  datatype Payload = Encoded(job: Job) | Garbled(raw: string)

  /** The JSON body of a POST to /api/v1/task; only `user_id` is read, and it
      is modelled as an absent or string-valued field. */
  datatype Request = Request(userId: Option<string>)

  /** JavaScript truthiness of an absent or string-valued `user_id`:
      `undefined` and the empty string are falsy. */
  predicate Truthy(userId: Option<string>)
  {
    userId.Some? && userId.value != ""
  }
}
