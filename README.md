# Per-user throttled task queue

A model of the core of `app.ts`: an HTTP handler that admits tasks tagged with
a `user_id` and pushes them onto the Redis list `taskQueue`, and a single
dispatch loop, `processQueue`, that pops them in arrival order, waits until at
least 1000 ms have passed since the user's last completed task, runs the task
and records the time in the in-memory map `userTimestamps`.

Modules, one per component:

- `Jobs` (jobs.dfy): the job record `{ user_id, timestamp, jobId }`, list
  payloads (a record, or text on which parsing or destructuring throws), requests and JavaScript
  truthiness of `user_id`.
- `Queue` (queue.dfy): the Redis list as a class `TaskQueue` whose `items`
  field is the list, head first. `LPush` prepends and `BRPop` takes the tail.
  `Pending` is the oldest-first view they are specified against.
- `Admission` (admission.dfy): the validation `Admit` and the POST
  `/api/v1/task` handler `PostTask`.
- `Throttle` (throttle.dfy): `MinSpacing`, the lookup `LastTaskTime`, the
  write `Record`, the wait formula `TimeToWait` and the start time of a task
  after the sleep, `StartTime`.
- `Dispatch` (dispatch.dfy): one loop iteration, including its `catch`, as a
  function `Next` on a value `State` (list, map, latest clock reading).
- `Traces` (traces.dfy): whole runs, with admissions and loop iterations
  interleaved (`Run`), and the FIFO and spacing lemmas over them.
- `Loop` (loop.dfy): the loop as a class `Dispatcher` owning `userTimestamps`
  and the clock. `Step` is one iteration and `ProcessQueue` runs the loop for
  a given number of iterations. Both are proved equal to `Next` and `Run`, and
  both keep the spacing invariant `Valid()` over the ghost history of events.

Time is integer milliseconds. The wall clock is the field `clock`, the latest
reading of `Date.now()`. Each iteration gets an environment value `Env`, which
supplies:

- whether the pop itself throws;
- the time elapsed before the reading at line 50, so the clock never goes
  backwards;
- how late the `setTimeout` fires;
- how long the task runs before the reading at line 61;
- whether the task throws.

`userTimestamps` is a plain JavaScript object, and the model follows how such
an object behaves when read and written with arbitrary keys:

- Reading a key with no own entry but inherited from `Object.prototype`
  (`constructor`, `toString`, `__proto__`, ...) yields a truthy non-number. The
  wait is then NaN, `NaN > 0` is false, and the task runs without a sleep.
- Assigning a number to `__proto__` is silently ignored. The user `__proto__`
  is therefore never recorded and never throttled
  (`Traces.ProtoUserIsNeverThrottled`). The spacing lemmas hold for every other
  user.

Behaviour of the code worth knowing:

- The loop sleeps inline. A user with no history therefore waits behind
  another user's throttle (head-of-line blocking), so dispatch timing for one
  user does depend on other users' jobs. `Traces.HeadOfLineBlocking` gives a
  three-job case: the job for user B starts at 6000 ms, at the same time as
  user A's second job, rather than at 5000 ms.
- The dispatch time is written after the task returns, and only if it
  returns. A task that throws leaves no record, so the next job of the same
  user may start at once (`Traces.ThrowingTaskLeavesNoSpacing`). The spacing
  guarantee is therefore stated relative to completed dispatches.
- A user with no entry counts as last dispatched at time 0. The wait is 0
  only once the clock reads at least 1000.
- Records are pushed at the head of the list and popped at its tail, so jobs
  leave in arrival order.

## Model

| member | source | states |
|---|---|---|
| `Throttle.TimeToWait` | app.ts:53-54 | The wait is at most 1000 ms when the clock has not gone backwards. Waiting it always reaches the last dispatch time plus 1000 ms, and it is the least such wait: it is 0 exactly when 1000 ms have already passed. |
| `Throttle.LastTaskTime` | app.ts:53 | An own entry is read as its number. A key with no own entry that `Object.prototype` provides reads as an inherited non-number. Any other key reads as 0. |
| `Throttle.StartTime` | app.ts:54-58 | The task starts no earlier than the clock reading. With a numeric last time it starts at once if 1000 ms have passed, otherwise exactly when they are reached plus the timer's lateness. With an inherited value it starts at once. |
| `Throttle.Record` | app.ts:61 | The user's own entry becomes the given time, except that an assignment to `__proto__` changes nothing. No other entry changes. |
| `Queue.Pending` | app.ts:46 | The list read from its tail: same length, with element i being the i-th oldest pending job. |
| `Queue.PendingPush` | app.ts:81 | Pushing at the head appends the payload as the youngest pending job. |
| `Queue.PendingPop` | app.ts:46 | The tail of a non-empty list is its oldest pending job, and removing it leaves the others in order. |
| `Queue.TaskQueue.LPush` | app.ts:81 | The payload becomes the head of the list and the last of the pending jobs. |
| `Queue.TaskQueue.BRPop` | app.ts:46-47 | On an empty list it returns nothing and changes nothing. Otherwise it removes and returns the tail, which is the oldest pending job. |
| `Admission.Admit` | app.ts:73-79 | A record is built exactly when `user_id` is present and non-empty. It carries that `user_id`, the admission timestamp and the jobId. |
| `Admission.PostTask` | app.ts:72-83 | An absent or empty `user_id` gets status 400 with "user_id is required", and the list is unchanged. Otherwise exactly one record `{user_id, timestamp, jobId}` is pushed and the response carries "Task queued" and the jobId. |
| `Dispatch.Next` | app.ts:44-67 | A pop that throws or times out changes nothing. Otherwise exactly the oldest job is consumed, even when parsing or the task throws. A parsed job is dispatched exactly when its task returns. A task that throws, or a record that does not parse, leaves the map unchanged. A returning task records the post-task clock reading under its own user only, as `Record` does, and every other user's last time is unchanged. The task starts when `StartTime` says, from the user's last time as read before it: at least 1000 ms after a numeric last time, and never before the previous clock reading. |
| `Traces.Apply` | app.ts:72-81 | An admission touches only the list. It is rejected with the list unchanged exactly when `user_id` is falsy; otherwise exactly its record is pushed at the head. A loop iteration never admits anything. |
| `Traces.Run` | app.ts:44-68 | One event per action, and the clock never goes backwards over a run. |
| `Traces.FifoStep` | app.ts:46-81 | For any one admission or iteration, what it took off the list followed by what is then pending equals what was pending followed by what it pushed. |
| `Traces.RunFifo` | app.ts:46-81 | Over any interleaving of admissions and iterations, the jobs taken so far followed by those still pending equal the jobs pending at the start followed by those admitted. |
| `Traces.PerUserFifo` | app.ts:46-81 | For each user, the jobs taken off the list are a prefix, in order, of that user's pending-then-admitted jobs. |
| `Traces.SpacingStep` | app.ts:50-61 | Any one admission or iteration preserves the spacing invariant. For every user but `__proto__`, the map covers every completed dispatch, and later triggers of that user start at least 1000 ms after the time it recorded. |
| `Traces.RunSpacing` | app.ts:50-61 | The spacing invariant holds along every run from any start state. |
| `Traces.DispatchSpacing` | app.ts:50-61 | After a completed dispatch for a user other than `__proto__`, any later task invocation for the same user starts at least 1000 ms after it started. |
| `Traces.HeadOfLineBlocking` | app.ts:44-61 | With jobs A1, A2, B1 pending and instant tasks, the starts are 5000, 6000 and 6000 ms: B waits behind A's throttle. |
| `Traces.ThrowingTaskLeavesNoSpacing` | app.ts:60-66 | A task that throws leaves the map untouched, so the next job of the same user starts at the same instant. |
| `Traces.ProtoUserIsNeverThrottled` | app.ts:53-61 | Two jobs of user `__proto__` with instant tasks both start at 5000 ms, and the map stays empty. |
| `Loop.Dispatcher.constructor` | app.ts:42 | A loop in a fresh process has an empty map and an empty history. No user waits once the clock reads at least 1000 ms. |
| `Loop.Dispatcher.Step` | app.ts:45-67 | The new list, map and clock, and the returned event, are exactly `Next` of the old ones. The spacing invariant over the history is kept. |
| `Loop.Dispatcher.ProcessQueue` | app.ts:44-68 | Running the loop for n iterations gives exactly `Run` over n ticks, and keeps the spacing invariant. |

## Left out

- Redis I/O (app.ts:15, 46, 81): the list is an in-memory sequence. A `brpop` that throws is caught and leaves the list and the map as they were. An `lpush` that fails is not modelled.
- JSON encoding and decoding (app.ts:49, 81): a list element is either a destructured record or an opaque `Garbled` text, on which parsing or destructuring throws. The wire format is not modelled. A value that parses but is not a record yields `undefined` fields; it is modelled as an `Encoded` job of user "undefined", but non-string `timestamp` or `jobId` values are not.
- A non-string `user_id` (a number, a boolean, an object) is not modelled. `user_id` is absent or a string.
- The `express-rate-limit` middleware (app.ts:18-29): a third-party sliding-window limiter, separate from dispatch.
- `cluster` forking and worker restart (app.ts:85-105): process management. Only the primary process runs `processQueue` (app.ts:99), so exactly one loop owns `userTimestamps`. Nothing restarts the primary. A loop in a fresh process starts from an empty map (`Loop.Dispatcher.constructor`).
- The task's side effects (app.ts:32-38), the file log and console output: the task is an opaque action that returns or throws after some duration.
- `uuidv4` and `Date.now()` (app.ts:50, 61, 78-79): job ids are opaque strings and admission timestamps are parameters. The loop's clock is an input that only moves forward.
- `setTimeout` (app.ts:57): modelled as a clock advance of the wait plus a lateness supplied by the environment.
- JavaScript numbers are doubles. Millisecond timestamps stay well inside the exactly representable integers, so the model uses unbounded integers.
- `Traces.DispatchSpacing`, `Traces.RunSpacing`: they exclude the user `__proto__`, which the code never throttles.
- `Loop.Dispatcher.ProcessQueue`: the source loop never terminates. The model runs a finite number of iterations, one for each environment value supplied.
