/** The dispatch loop `processQueue` as an object: it owns `userTimestamps`
    and the latest clock reading, and shares the list with admission. */
module Loop {
  import opened Jobs
  import opened Queue
  import opened Throttle
  import opened Dispatch
  import opened Traces

  class Dispatcher {
    const queue: TaskQueue
    var userTimestamps: map<UserId, nat>
    /** The latest reading of `Date.now()` (or lower bound on it after a sleep). */
    var clock: nat
    /** Every iteration's outcome so far. */
    ghost var history: seq<Event>

    function Snapshot(): State
      reads this, queue
    {
      State(queue.items, userTimestamps, clock)
    }

    /** The spacing invariant the map keeps over the whole history. */
    ghost predicate Valid()
      reads this
    {
      Spaced(history) && Covers(userTimestamps, history)
    }

    /** A loop started in a fresh process begins with an empty map, so no
        user has to wait once the clock reads at least MinSpacing. */
    constructor (queue: TaskQueue, clock: nat)
      ensures Valid()
      ensures this.queue == queue && this.clock == clock && userTimestamps == map[] && history == []
      ensures forall u, t, late :: t >= MinSpacing ==> StartTime(LastTaskTime(userTimestamps, u), t, late) == t
    {
      this.queue := queue;
      this.clock := clock;
      userTimestamps := map[];
      history := [];
    }

    /** One iteration: pop with timeout, parse, wait out the user's spacing,
        run the task, record the time; any exception skips the rest. */
    method Step(e: Env) returns (ev: Event)
      requires Valid()
      modifies this, queue
      ensures Valid()
      ensures (Snapshot(), ev) == Next(old(Snapshot()), e)
      ensures history == old(history) + [ev]
    {
      ghost var before := Snapshot();
      if e.popFails {
        ev := PopFailed;
      } else {
        var job := queue.BRPop();
        match job {
          case None =>
            ev := Idle;
          case Some(Garbled(raw)) =>
            ev := ParseFailed(Garbled(raw));
          case Some(Encoded(j)) =>
            var now := clock + e.elapsed;
            var start := now;
            var lastTaskTime := LastTaskTime(userTimestamps, j.userId);
            if lastTaskTime.Millis? {
              var timeToWait := TimeToWait(lastTaskTime.ms, now);
              if timeToWait > 0 {
                start := now + timeToWait + e.late;
              }
            }
            clock := start + e.duration;
            if e.outcome == Completes {
              if j.userId != ProtoKey {
                userTimestamps := userTimestamps[j.userId := clock];
              }
              ev := Dispatched(j, start, clock);
            } else {
              ev := TaskFailed(j, start);
            }
        }
      }
      assert (Snapshot(), ev) == Next(before, e) == Apply(before, Tick(e));
      SpacingStep(before, history, Tick(e));
      history := history + [ev];
    }

    /** The `while (true)` loop, run for as many iterations as `envs` has entries. */
    method ProcessQueue(envs: seq<Env>) returns (evs: seq<Event>)
      requires Valid()
      modifies this, queue
      ensures Valid()
      ensures (Snapshot(), evs) == Run(old(Snapshot()), Ticks(envs))
      ensures history == old(history) + evs
    {
      evs := [];
      for i := 0 to |envs|
        invariant Valid()
        invariant (Snapshot(), evs) == Run(old(Snapshot()), Ticks(envs[..i]))
        invariant history == old(history) + evs
      {
        var ev := Step(envs[i]);
        assert Ticks(envs[..i + 1])[..i] == Ticks(envs[..i]);
        evs := evs + [ev];
      }
      assert envs[..|envs|] == envs;
    }
  }
}
