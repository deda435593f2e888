/**
  `auto_disconnect_bound_object`: a one-shot guard over one binding. It is
  armed when constructed; `release()` disarms it; tearing it down while armed
  calls the binding's `disconnect(obj, data)` callback once.

  The callback is foreign code, so calling it is recorded as an event
  appended to a trace.
 */
module AutoDisconnect {
  import opened BoundObjects

  /** One call of a binding's disconnect callback with its two arguments. */
  datatype Event = Invoke(callback: Callback, obj: Addr, data: Addr)

  type Trace = seq<Event>

  datatype Guard = Guard(binding: BoundObject, armed: bool)

  /** The call the guard makes for binding `b`. */
  function CallFor(b: BoundObject): Event
  {
    Invoke(b.disconnect, b.obj, b.data)
  }

  /** How many times the trace calls `b`'s callback on `b`'s object and context. */
  function Calls(t: Trace, b: BoundObject): nat
  {
    multiset(t)[CallFor(b)]
  }

  /** The constructor keeps the binding and starts armed. */
  function Make(b: BoundObject): (g: Guard)
    ensures g.armed
    ensures g.binding == b
  {
    Guard(b, true)
  }

  /** `release()` disarms the guard and leaves the binding alone. */
  function Release(g: Guard): (r: Guard)
    ensures !r.armed
    ensures r.binding == g.binding
  {
    g.(armed := false)
  }

  /** The destructor: an armed guard appends one call of its binding's
      callback; a released one appends nothing. */
  function Teardown(g: Guard, t: Trace): (t': Trace)
    ensures |t'| == |t| + (if g.armed then 1 else 0)
    ensures t'[..|t|] == t
    ensures forall i :: |t| <= i < |t'| ==> t'[i] == CallFor(g.binding)
    ensures Calls(t', g.binding) == Calls(t, g.binding) + (if g.armed then 1 else 0)
  {
    if g.armed then t + [CallFor(g.binding)] else t
  }

  /** `release()` called `n` times in a row. */
  function ReleaseTimes(g: Guard, n: nat): Guard
    decreases n
  {
    if n == 0 then g else ReleaseTimes(Release(g), n - 1)
  }

  /** The whole life of a guard: constructed over `b`, released `n` times,
      then destroyed, with `t` the trace before destruction. */
  function Lifetime(b: BoundObject, n: nat, t: Trace): Trace
  {
    Teardown(ReleaseTimes(Make(b), n), t)
  }

  /** `release()` is idempotent. */
  lemma ReleaseIdempotent(g: Guard)
    ensures Release(Release(g)) == Release(g)
  {
  }

  /** After `n` releases the guard is armed exactly when it was armed before
      and `n` is zero; the binding never changes. */
  lemma {:induction false} ReleaseTimesDisarms(g: Guard, n: nat)
    ensures ReleaseTimes(g, n).armed <==> g.armed && n == 0
    ensures ReleaseTimes(g, n).binding == g.binding
    decreases n
  {
    if n > 0 {
      ReleaseTimesDisarms(Release(g), n - 1);
    }
  }

  /** A guard calls its binding's callback exactly once in its life if
      `release()` was never called, and never if it was; nothing else is
      appended to the trace. */
  lemma {:induction false} LifetimeCallsOnceUnlessReleased(b: BoundObject, n: nat, t: Trace)
    ensures Calls(Lifetime(b, n, t), b) == Calls(t, b) + (if n == 0 then 1 else 0)
    ensures Lifetime(b, n, t) == (if n == 0 then t + [CallFor(b)] else t)
  {
    ReleaseTimesDisarms(Make(b), n);
  }
}
