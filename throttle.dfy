/** The per-user spacing rule of the dispatch loop, over `userTimestamps`,
    a plain JavaScript object used as a map. */
module Throttle {
  import opened Jobs

  /** Minimum number of milliseconds between two dispatches for one user. */
  const MinSpacing: nat := 1000

  /** The properties every plain object inherits from `Object.prototype`.
      Reading one of them through a key that has no own entry yields a
      truthy non-number (a function, or the prototype object itself). */
  const ObjectPrototypeKeys: set<string> := {
    "constructor", "__proto__", "toString", "toLocaleString", "valueOf",
    "hasOwnProperty", "isPrototypeOf", "propertyIsEnumerable",
    "__defineGetter__", "__defineSetter__", "__lookupGetter__", "__lookupSetter__" }

  /** The one key whose assignment does not create an own entry: storing a
      number into `__proto__` is silently ignored. */
  const ProtoKey := "__proto__"

  /** What `userTimestamps[user_id] || 0` evaluates to: a number of
      milliseconds, or an inherited non-number that makes the wait NaN. */
  datatype LastTime = Millis(ms: nat) | Inherited

  /** Line 53: an own entry, else an inherited property, else `|| 0` (a user
      without an entry counts as last dispatched at time 0). */
  function LastTaskTime(stamps: map<UserId, nat>, u: UserId): (r: LastTime)
    ensures u in stamps ==> r == Millis(stamps[u])
    ensures r.Inherited? <==> u !in stamps && u in ObjectPrototypeKeys
    ensures r.Millis? && u !in stamps ==> r.ms == 0
  {
    if u in stamps then Millis(stamps[u])
    else if u in ObjectPrototypeKeys then Inherited
    else Millis(0)
  }

  /** Line 61: the user's own entry becomes `t`, except for `__proto__`,
      whose assignment is ignored; no other entry changes. */
  function Record(stamps: map<UserId, nat>, u: UserId, t: nat): (r: map<UserId, nat>)
    ensures u != ProtoKey ==> u in r && r[u] == t
    ensures u == ProtoKey ==> r == stamps
    ensures forall v :: v != u ==> (v in r <==> v in stamps) && (v in r ==> r[v] == stamps[v])
  {
    if u == ProtoKey then stamps else stamps[u := t]
  }

  /** `Math.max(0, 1000 - (now - lastTaskTime))`: the least delay after which
      MinSpacing milliseconds have passed since `lastTaskTime`. */
  function TimeToWait(lastTaskTime: nat, now: nat): (w: nat)
    ensures now >= lastTaskTime ==> w <= MinSpacing
    ensures now + w >= lastTaskTime + MinSpacing
    ensures w == 0 || now + w == lastTaskTime + MinSpacing
    ensures w == 0 <==> now >= lastTaskTime + MinSpacing
  {
    var d: int := MinSpacing - (now - lastTaskTime);
    if d > 0 then d else 0
  }

  /** Lines 54-58: when the task is invoked. With a numeric last time it is at
      once if the spacing has already passed, otherwise when it is reached,
      plus the timer's lateness. With an inherited value the wait is NaN,
      `NaN > 0` is false, and there is no sleep at all. */
  function StartTime(last: LastTime, now: nat, late: nat): (start: nat)
    ensures start >= now
    ensures last.Millis? ==> start >= last.ms + MinSpacing
    ensures last.Millis? && now >= last.ms + MinSpacing ==> start == now
    ensures last.Millis? && now < last.ms + MinSpacing ==> start == last.ms + MinSpacing + late
    ensures last.Inherited? ==> start == now
  {
    match last
    case Inherited => now
    case Millis(lastTaskTime) =>
      var timeToWait := TimeToWait(lastTaskTime, now);
      if timeToWait > 0 then now + timeToWait + late else now
  }
}
