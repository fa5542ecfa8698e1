/** One iteration of the dispatch loop as a function on values. */
module Dispatch {
  import opened Jobs
  import opened Throttle

  /** Whether the task call returns or throws. */
  datatype TaskOutcome = Completes | Throws

  /** What the environment decides in one iteration: whether the pop itself
      throws (the store is unreachable), the milliseconds elapsed between the
      previous clock reading and `Date.now()` after the pop (so the clock never
      goes backwards), how late the sleep timer fires, how long the task runs
      before the clock is read again, and whether it throws. */
  datatype Env = Env(popFails: bool, elapsed: nat, late: nat, duration: nat, outcome: TaskOutcome)

  /** The list (head first), `userTimestamps`, and the latest clock reading. */
  datatype State = State(queue: seq<Payload>, stamps: map<UserId, nat>, clock: nat)

  datatype Event =
    | Queued(payload: Payload)                         // admission pushed a record
    | Rejected                                         // admission answered 400
    | Idle                                             // the pop timed out
    | PopFailed                                        // the pop threw
    | ParseFailed(payload: Payload)                    // the record did not parse
    | Dispatched(job: Job, start: nat, recorded: nat)  // task triggered and returned
    | TaskFailed(job: Job, start: nat)                 // task triggered and threw

  /** An event at which the task is invoked for `job.userId` at time `start`. */
  predicate IsTrigger(ev: Event)
  {
    ev.Dispatched? || ev.TaskFailed?
  }

  /** What an iteration took off the list. */
  function Dequeued(ev: Event): seq<Payload>
  {
    match ev
    case ParseFailed(p) => [p]
    case Dispatched(job, _, _) => [Encoded(job)]
    case TaskFailed(job, _) => [Encoded(job)]
    case _ => []
  }

  /** One pass through the body of the `while (true)` loop, including its catch. */
  function Next(s: State, e: Env): (r: (State, Event))
    // a pop that throws or times out changes nothing
    ensures e.popFails ==> r == (s, PopFailed)
    ensures !e.popFails && s.queue == [] ==> r == (s, Idle)
    // otherwise exactly the tail of the list is consumed, whatever happens next
    ensures !e.popFails && s.queue != [] ==>
              r.0.queue == s.queue[..|s.queue| - 1] && Dequeued(r.1) == [s.queue[|s.queue| - 1]]
    // a parsed job is dispatched exactly when its task returns; a throwing task
    // (or an unparsable record) leaves the map as it was
    ensures r.1.Dispatched? <==>
              !e.popFails && s.queue != [] && s.queue[|s.queue| - 1].Encoded? && e.outcome == Completes
    ensures r.1.Dispatched? ==> r.1.job == s.queue[|s.queue| - 1].job
    ensures !e.popFails && s.queue != [] && s.queue[|s.queue| - 1].Encoded? && e.outcome == Throws ==>
              r.1.TaskFailed? && r.1.job == s.queue[|s.queue| - 1].job
    ensures !r.1.Dispatched? ==> r.0.stamps == s.stamps
    // a returning task records the clock reading taken after it, under its own
    // user only (an assignment to `__proto__` is lost)
    ensures r.1.Dispatched? ==>
              && r.1.recorded >= r.1.start && r.1.recorded == r.0.clock
              && r.0.stamps == Record(s.stamps, r.1.job.userId, r.1.recorded)
    ensures forall v :: !(r.1.Dispatched? && v == r.1.job.userId) ==>
              LastTaskTime(r.0.stamps, v) == LastTaskTime(s.stamps, v)
    // a trigger comes when StartTime says, from the user's last time as read before it
    ensures IsTrigger(r.1) ==>
              r.1.start == StartTime(LastTaskTime(s.stamps, r.1.job.userId), s.clock + e.elapsed, e.late)
    ensures IsTrigger(r.1) && LastTaskTime(s.stamps, r.1.job.userId).Millis? ==>
              r.1.start >= LastTaskTime(s.stamps, r.1.job.userId).ms + MinSpacing
    ensures IsTrigger(r.1) ==> r.1.start >= s.clock
    ensures r.0.clock >= s.clock
  {
    if e.popFails then (s, PopFailed)
    else if s.queue == [] then (s, Idle)
    else
      var rest := s.queue[..|s.queue| - 1];
      match s.queue[|s.queue| - 1]
      case Garbled(raw) => (s.(queue := rest), ParseFailed(Garbled(raw)))
      case Encoded(job) =>
        var now := s.clock + e.elapsed;
        var start := StartTime(LastTaskTime(s.stamps, job.userId), now, e.late);
        var finish := start + e.duration;
        if e.outcome == Completes then (State(rest, Record(s.stamps, job.userId, finish), finish), Dispatched(job, start, finish))
        else (State(rest, s.stamps, finish), TaskFailed(job, start))
  }
}
