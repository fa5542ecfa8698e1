/** Runs of the whole system: admissions from the HTTP workers interleaved
    with iterations of the single dispatch loop, both acting atomically on
    the shared list. */
module Traces {
  import opened Jobs
  import opened Queue
  import opened Throttle
  import opened Admission
  import opened Dispatch

  datatype Action =
    | Submit(req: Request, timestamp: nat, jobId: JobId)
    | Tick(env: Env)

  /** An admission touches only the list: it answers 400 and pushes nothing
      for a falsy `user_id`, and otherwise pushes exactly its record at the
      head. A tick never admits anything. */
  function Apply(s: State, a: Action): (r: (State, Event))
    ensures a.Submit? ==> r.0.stamps == s.stamps && r.0.clock == s.clock
    ensures a.Submit? ==> (r.1.Rejected? <==> !Truthy(a.req.userId)) && (r.1.Rejected? || r.1.Queued?)
    ensures r.1.Rejected? ==> r.0 == s
    ensures r.1.Queued? ==>
              && a.Submit?
              && r.1.payload == Encoded(Job(a.req.userId.value, a.timestamp, a.jobId))
              && r.0.queue == [r.1.payload] + s.queue
    ensures a.Tick? ==> !r.1.Queued? && !r.1.Rejected?
  {
    match a
    case Submit(req, timestamp, jobId) =>
      (match Admit(req, timestamp, jobId)
       case None => (s, Rejected)
       case Some(job) => (s.(queue := [Encoded(job)] + s.queue), Queued(Encoded(job))))
    case Tick(e) => Next(s, e)
  }

  /** The final state and the event of every action, in order. */
  function Run(s: State, acts: seq<Action>): (r: (State, seq<Event>))
    ensures |r.1| == |acts|
    ensures r.0.clock >= s.clock
  {
    if acts == [] then (s, [])
    else
      var mid := Run(s, acts[..|acts| - 1]);
      var step := Apply(mid.0, acts[|acts| - 1]);
      (step.0, mid.1 + [step.1])
  }

  function Ticks(envs: seq<Env>): seq<Action>
  {
    seq(|envs|, i requires 0 <= i < |envs| => Tick(envs[i]))
  }

  /** Everything the loop took off the list, in the order it did. */
  function Popped(evs: seq<Event>): seq<Payload>
  {
    if evs == [] then [] else Popped(evs[..|evs| - 1]) + Dequeued(evs[|evs| - 1])
  }

  /** What an event pushed onto the list. */
  function Admitted(ev: Event): seq<Payload>
  {
    if ev.Queued? then [ev.payload] else []
  }

  /** Everything admission pushed onto the list, in the order it did. */
  function Pushed(evs: seq<Event>): seq<Payload>
  {
    if evs == [] then [] else Pushed(evs[..|evs| - 1]) + Admitted(evs[|evs| - 1])
  }

  /** The well-formed jobs of user `u`, in order. */
  function ForUser(ps: seq<Payload>, u: UserId): seq<Job>
  {
    if ps == [] then []
    else
      var p := ps[|ps| - 1];
      ForUser(ps[..|ps| - 1], u) + (if p.Encoded? && p.job.userId == u then [p.job] else [])
  }

  lemma {:induction false} ForUserAppend(a: seq<Payload>, b: seq<Payload>, u: UserId)
    ensures ForUser(a + b, u) == ForUser(a, u) + ForUser(b, u)
  {
    if b == [] {
      assert a + b == a;
    } else {
      assert (a + b)[..|a + b| - 1] == a + b[..|b| - 1];
      ForUserAppend(a, b[..|b| - 1], u);
    }
  }

  /** One action: what it took off the list, followed by what is then
      pending, is what was pending followed by what it pushed. */
  lemma FifoStep(s: State, a: Action)
    ensures Dequeued(Apply(s, a).1) + Pending(Apply(s, a).0.queue) == Pending(s.queue) + Admitted(Apply(s, a).1)
  {
    var r := Apply(s, a);
    if r.1.Queued? {
      PendingPush(s.queue, r.1.payload);
    } else if a.Tick? && !a.env.popFails && s.queue != [] {
      PendingPop(s.queue);
    }
  }

  /** If taken-then-pending balanced before, and one step moved its take
      from the pending part and added its push, the balance still holds. */
  lemma AppendBalance<T>(taken: seq<T>, took: seq<T>, pending': seq<T>, pending: seq<T>,
                         initial: seq<T>, pushed: seq<T>, push: seq<T>)
    requires taken + pending == initial + pushed
    requires took + pending' == pending + push
    ensures (taken + took) + pending' == initial + (pushed + push)
  {
    calc {
      (taken + took) + pending';
      taken + (took + pending');
      (taken + pending) + push;
      (initial + pushed) + push;
    }
  }

  /** FIFO: what the loop has taken, followed by what is still pending, is
      what was pending at the start followed by what admission pushed. */
  lemma {:induction false} RunFifo(s: State, acts: seq<Action>)
    ensures Popped(Run(s, acts).1) + Pending(Run(s, acts).0.queue) == Pending(s.queue) + Pushed(Run(s, acts).1)
  {
    if acts != [] {
      var init := acts[..|acts| - 1];
      RunFifo(s, init);
      var mid := Run(s, init);
      var step := Apply(mid.0, acts[|acts| - 1]);
      var evs := mid.1 + [step.1];
      assert Run(s, acts) == (step.0, evs);
      assert evs[..|evs| - 1] == mid.1 && evs[|evs| - 1] == step.1;
      assert Popped(evs) == Popped(mid.1) + Dequeued(step.1);
      assert Pushed(evs) == Pushed(mid.1) + Admitted(step.1);
      FifoStep(mid.0, acts[|acts| - 1]);
      AppendBalance(Popped(mid.1), Dequeued(step.1), Pending(step.0.queue), Pending(mid.0.queue),
                    Pending(s.queue), Pushed(mid.1), Admitted(step.1));
    }
  }

  /** Per-user FIFO: the jobs of one user leave the list in the order they
      were pending or admitted. */
  lemma PerUserFifo(s: State, acts: seq<Action>, u: UserId)
    ensures ForUser(Popped(Run(s, acts).1), u) <= ForUser(Pending(s.queue) + Pushed(Run(s, acts).1), u)
  {
    var r := Run(s, acts);
    RunFifo(s, acts);
    ForUserAppend(Popped(r.1), Pending(r.0.queue), u);
  }

  /** Every completed dispatch records a time no earlier than its start, and
      every later trigger for the same user comes at least MinSpacing after
      that recorded time. The user `__proto__` is excluded: its time is never
      stored, so it is never throttled. */
  ghost predicate Spaced(evs: seq<Event>)
  {
    && (forall i :: 0 <= i < |evs| && evs[i].Dispatched? ==> evs[i].start <= evs[i].recorded)
    && (forall i, j ::
          && 0 <= i < j < |evs| && evs[i].Dispatched? && IsTrigger(evs[j])
          && evs[j].job.userId == evs[i].job.userId && evs[i].job.userId != ProtoKey
          ==> evs[j].start >= evs[i].recorded + MinSpacing)
  }

  /** The map holds, for every completed dispatch of a user other than
      `__proto__`, a time no earlier than the one that dispatch recorded. */
  ghost predicate Covers(stamps: map<UserId, nat>, evs: seq<Event>)
  {
    forall i :: 0 <= i < |evs| && evs[i].Dispatched? && evs[i].job.userId != ProtoKey ==>
      evs[i].job.userId in stamps && stamps[evs[i].job.userId] >= evs[i].recorded
  }

  /** One action keeps the spacing invariant. */
  lemma SpacingStep(s: State, evs: seq<Event>, a: Action)
    requires Spaced(evs) && Covers(s.stamps, evs)
    ensures Spaced(evs + [Apply(s, a).1]) && Covers(Apply(s, a).0.stamps, evs + [Apply(s, a).1])
  {
  }

  /** The spacing invariant holds along every run. */
  lemma {:induction false} RunSpacing(s: State, acts: seq<Action>)
    ensures Spaced(Run(s, acts).1) && Covers(Run(s, acts).0.stamps, Run(s, acts).1)
  {
    if acts != [] {
      var init := acts[..|acts| - 1];
      RunSpacing(s, init);
      var mid := Run(s, init);
      SpacingStep(mid.0, mid.1, acts[|acts| - 1]);
    }
  }

  /** For every user other than `__proto__`: two completed dispatches start
      at least MinSpacing apart,
      and a task invoked after a completed dispatch for the same user starts
      at least MinSpacing after it. */
  lemma DispatchSpacing(s: State, acts: seq<Action>, i: nat, j: nat)
    requires i < j < |acts|
    requires Run(s, acts).1[i].Dispatched? && IsTrigger(Run(s, acts).1[j])
    requires Run(s, acts).1[i].job.userId == Run(s, acts).1[j].job.userId
    requires Run(s, acts).1[i].job.userId != ProtoKey
    ensures Run(s, acts).1[j].start >= Run(s, acts).1[i].start + MinSpacing
  {
    RunSpacing(s, acts);
  }

  /** The loop sleeps inline, so a user with no history waits behind another
      user's throttle: jobs A1, A2 (user "A") and B1 (user "B") pending in that
      order, a clock at 5000 ms and instant tasks give B1 a start of 6000 ms,
      not 5000 ms. */
  lemma HeadOfLineBlocking()
    ensures
      var a1, a2, b1 := Job("A", 0, "1"), Job("A", 0, "2"), Job("B", 0, "3");
      var s := State([Encoded(b1), Encoded(a2), Encoded(a1)], map[], 5000);
      var t := Tick(Env(false, 0, 0, 0, Completes));
      Run(s, [t, t, t]).1 == [Dispatched(a1, 5000, 5000), Dispatched(a2, 6000, 6000), Dispatched(b1, 6000, 6000)]
  {
    var a1, a2, b1 := Job("A", 0, "1"), Job("A", 0, "2"), Job("B", 0, "3");
    var s := State([Encoded(b1), Encoded(a2), Encoded(a1)], map[], 5000);
    var t := Tick(Env(false, 0, 0, 0, Completes));
    assert [t, t, t][..2] == [t, t] && [t, t][..1] == [t] && [t][..0] == [];
    var s1 := State([Encoded(b1), Encoded(a2)], map["A" := 5000], 5000);
    var s2 := State([Encoded(b1)], map["A" := 6000], 6000);
    var e := Env(false, 0, 0, 0, Completes);
    assert s.queue[..2] == s1.queue && s1.queue[..1] == s2.queue && s2.queue[..0] == [];
    assert Next(s, e) == (s1, Dispatched(a1, 5000, 5000));
    assert LastTaskTime(s1.stamps, "A") == Millis(5000) && TimeToWait(5000, 5000) == 1000;
    assert s1.stamps["A" := 6000] == s2.stamps;
    assert Next(s1, e) == (s2, Dispatched(a2, 6000, 6000));
    assert Run(s, []) == (s, []);
    assert Apply(s, t) == Next(s, e);
    assert Run(s, [t]) == (s1, [] + [Dispatched(a1, 5000, 5000)]);
    assert Apply(s1, t) == Next(s1, e);
    var tt := [t, t];
    assert tt[..|tt| - 1] == [t] && tt[|tt| - 1] == t;
    assert Run(s, [t]).1 == [Dispatched(a1, 5000, 5000)];
    assert Run(s, tt).0 == s2;
    assert Run(s, tt) == (s2, [Dispatched(a1, 5000, 5000)] + [Dispatched(a2, 6000, 6000)]);
    var ttt := [t, t, t];
    assert ttt[..|ttt| - 1] == tt && ttt[|ttt| - 1] == t;
  }

  /** Only a task that returned is recorded: after a throwing task for user
      "A", the next job of "A" is invoked at the same instant. */
  lemma ThrowingTaskLeavesNoSpacing()
    ensures
      var a1, a2 := Job("A", 0, "1"), Job("A", 0, "2");
      var s := State([Encoded(a2), Encoded(a1)], map[], 5000);
      Run(s, [Tick(Env(false, 0, 0, 0, Throws)), Tick(Env(false, 0, 0, 0, Completes))]).1
        == [TaskFailed(a1, 5000), Dispatched(a2, 5000, 5000)]
  {
    var a1, a2 := Job("A", 0, "1"), Job("A", 0, "2");
    var s := State([Encoded(a2), Encoded(a1)], map[], 5000);
    var fail, ok := Tick(Env(false, 0, 0, 0, Throws)), Tick(Env(false, 0, 0, 0, Completes));
    assert [fail, ok][..1] == [fail] && [fail][..0] == [];
    assert s.queue[..1] == [Encoded(a2)] && [Encoded(a2)][..0] == [];
    assert Next(s, fail.env) == (State([Encoded(a2)], map[], 5000), TaskFailed(a1, 5000));
    assert Run(s, []) == (s, []);
    assert Apply(s, fail) == Next(s, fail.env);
    assert Run(s, [fail]) == (State([Encoded(a2)], map[], 5000), [] + [TaskFailed(a1, 5000)]);
  }

  /** The user `__proto__` is never throttled: reading its entry yields the
      prototype object, the wait is NaN so there is no sleep, and storing the
      time is ignored. Two of its jobs with instant tasks both start at 5000 ms
      and the map stays empty. */
  lemma ProtoUserIsNeverThrottled()
    ensures
      var p1, p2 := Job(ProtoKey, 0, "1"), Job(ProtoKey, 0, "2");
      var s := State([Encoded(p2), Encoded(p1)], map[], 5000);
      var t := Tick(Env(false, 0, 0, 0, Completes));
      var r := Run(s, [t, t]);
      r.1 == [Dispatched(p1, 5000, 5000), Dispatched(p2, 5000, 5000)] && r.0.stamps == map[]
  {
    var p1, p2 := Job(ProtoKey, 0, "1"), Job(ProtoKey, 0, "2");
    var s := State([Encoded(p2), Encoded(p1)], map[], 5000);
    var e := Env(false, 0, 0, 0, Completes);
    var t := Tick(e);
    var s1 := State([Encoded(p2)], map[], 5000);
    var s2 := State([], map[], 5000);
    assert s.queue[..1] == s1.queue && s1.queue[..0] == [];
    assert Next(s, e) == (s1, Dispatched(p1, 5000, 5000));
    assert Next(s1, e) == (s2, Dispatched(p2, 5000, 5000));
    assert Run(s, []) == (s, []);
    assert Apply(s, t) == Next(s, e);
    assert Run(s, [t]) == (s1, [] + [Dispatched(p1, 5000, 5000)]);
    assert Apply(s1, t) == Next(s1, e);
    var tt := [t, t];
    assert tt[..|tt| - 1] == [t] && tt[|tt| - 1] == t;
    assert Run(s, [t]).1 == [Dispatched(p1, 5000, 5000)];
    assert Run(s, tt) == (s2, [Dispatched(p1, 5000, 5000)] + [Dispatched(p2, 5000, 5000)]);
  }
}
