/** The schedule types as the source has them: objects whose `Next` updates its fields in
    place. Each method is proved against `Schedules.Next` on the object's value. */
module ScheduleObjects {
  import opened GoTime
  import opened Wrappers
  import opened Schedules

  /** A value of the `Schedule` interface: a pointer to one of the stateful schedules, or a
      `PeriodicAt`, which the source keeps by value. */
  datatype ScheduleRef =
    | EveryRef(every: EverySchedule)
    | EveryAtRef(first: Time, interval: Duration)
    | OnceRef(once: OnceSchedule)
    | OnceAtRef(onceAt: OnceAtSchedule)
    | DelayedRef(delayed: DelayedSchedule)
  {
    /** The objects whose fields a call of `Next` may change. */
    ghost function Footprint(): set<object> {
      match this
      case EveryRef(s) => {s}
      case EveryAtRef(_, _) => {}
      case OnceRef(s) => {s}
      case OnceAtRef(s) => {s}
      case DelayedRef(s) => s.repr
    }

    /** How many `Delayed`s deep the schedule is. */
    ghost function Depth(): nat {
      if DelayedRef? then delayed.depth else 0
    }

    /** Intervals are positive, and a `Delayed` shares no object with its inner schedule. */
    ghost predicate Valid()
      decreases Depth()
    {
      match this
      case EveryRef(s) => s.interval > 0
      case EveryAtRef(_, interval) => interval > 0
      case OnceRef(_) => true
      case OnceAtRef(_) => true
      case DelayedRef(s) =>
        s.inner.Depth() < s.depth && s.inner.Valid()
        && s !in s.inner.Footprint() && s.repr == {s} + s.inner.Footprint()
    }

    ghost function Value(): (s: Schedule)
      requires Valid()
      reads Footprint()
      ensures Schedules.Valid(s)
      decreases Depth()
    {
      match this
      case EveryRef(s) => Every(s.interval, if s.anchored then Some(s.anchor) else None)
      case EveryAtRef(first, interval) => EveryAt(first, interval)
      case OnceRef(s) => Once(s.delay, s.scheduled)
      case OnceAtRef(s) => OnceAt(s.at, s.scheduled)
      case DelayedRef(s) => Delayed(s.delay, s.inner.Value(), s.started)
    }

    /** Dynamic dispatch of `Next`. */
    method Next(after: Time) returns (next: Time, ok: bool)
      requires Valid()
      modifies Footprint()
      ensures Answer(Value(), if ok then Some(next) else None) == Schedules.Next(old(Value()), after)
      decreases Depth(), 1
    {
      match this
      case EveryRef(s) => next, ok := s.Next(after);
      case EveryAtRef(first, interval) =>
        if after < first {
          next, ok := first, true;
        } else {
          var n := TruncDiv(Sub(after, first), interval);
          next, ok := first + Wrap(Wrap(n + 1) * interval), true;
        }
      case OnceRef(s) => next, ok := s.Next(after);
      case OnceAtRef(s) => next, ok := s.Next(after);
      case DelayedRef(s) => next, ok := s.Next(after);
    }
  }

  class EverySchedule {
    const interval: Duration
    var anchor: Time
    var anchored: bool

    constructor (interval: Duration)
      requires interval > 0
      ensures EveryRef(this).Valid() && EveryRef(this).Value() == Periodic(interval)
    {
      this.interval, this.anchor, this.anchored := interval, 0, false;
    }

    method Next(after: Time) returns (next: Time, ok: bool)
      requires interval > 0
      modifies this
      ensures ok && anchored && anchor == old(if anchored then anchor else after)
      ensures next == PeriodicSlot(anchor, interval, after)
    {
      if !anchored {
        anchor := after;
        anchored := true;
      }
      var n := TruncDiv(Sub(after, anchor), interval);
      return anchor + Wrap(Wrap(n + 1) * interval), true;
    }
  }

  class OnceSchedule {
    const delay: Duration
    var scheduled: bool

    constructor (delay: Duration)
      ensures OnceRef(this).Value() == OnceAfter(delay)
    {
      this.delay, this.scheduled := delay, false;
    }

    method Next(after: Time) returns (next: Time, ok: bool)
      modifies this
      ensures scheduled && ok == !old(scheduled)
      ensures ok ==> next == after + delay
    {
      if scheduled {
        return 0, false;
      }
      scheduled := true;
      return after + delay, true;
    }
  }

  class OnceAtSchedule {
    const at: Time
    var scheduled: bool

    constructor (at: Time)
      ensures OnceAtRef(this).Value() == OnceAtInstant(at)
    {
      this.at, this.scheduled := at, false;
    }

    method Next(after: Time) returns (next: Time, ok: bool)
      modifies this
      ensures scheduled && ok == (!old(scheduled) && at > after)
      ensures ok ==> next == at
    {
      if scheduled {
        return 0, false;
      }
      scheduled := true;
      if at > after {
        return at, true;
      }
      return 0, false;
    }
  }

  class DelayedSchedule {
    const delay: Duration
    const inner: ScheduleRef
    var started: bool
    ghost const depth: nat
    ghost const repr: set<object>

    constructor (delay: Duration, inner: ScheduleRef)
      requires inner.Valid()
      ensures DelayedRef(this).Valid() && DelayedRef(this).Value() == DelayedBy(delay, inner.Value())
      ensures repr == {this} + inner.Footprint()
    {
      this.delay, this.inner, this.started := delay, inner, false;
      this.depth := inner.Depth() + 1;
      this.repr := {this} + inner.Footprint();
    }

    method Next(after: Time) returns (next: Time, ok: bool)
      requires DelayedRef(this).Valid()
      modifies repr
      ensures Answer(DelayedRef(this).Value(), if ok then Some(next) else None)
           == Schedules.Next(old(DelayedRef(this).Value()), after)
      decreases depth, 0
    {
      if !started {
        started := true;
        return after + delay, true;
      }
      next, ok := inner.Next(after);
    }
  }
}
