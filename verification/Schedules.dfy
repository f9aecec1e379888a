/** The schedule algebra of api/scheduler/schedule.go on values: `Next` maps a schedule and
    a clock reading to the schedule's new state and its answer, in Go's machine arithmetic. */
module Schedules {
  import opened GoTime
  import opened Wrappers

  /** One constructor per schedule type. A `Periodic` records its anchor on the first call;
      the one-shots and `Delayed` remember that they have been asked. */
  datatype Schedule =
    | Every(interval: Duration, anchor: Option<Time>)
    | EveryAt(first: Time, interval: Duration)
    | Once(delay: Duration, scheduled: bool)
    | OnceAt(at: Time, scheduled: bool)
    | Delayed(delay: Duration, inner: Schedule, started: bool)

  /** What one call of `Next` leaves behind: `fire` is None where Go returns ok == false. */
  datatype Answer = Answer(schedule: Schedule, fire: Option<Time>)

  /** What the constructors demand: "interval must be > 0" (zero would divide by zero). */
  predicate Valid(s: Schedule) {
    match s
    case Every(interval, _) => interval > 0
    case EveryAt(_, interval) => interval > 0
    case Once(_, _) => true
    case OnceAt(_, _) => true
    case Delayed(_, inner, _) => Valid(inner)
  }

  // ---- Constructors ----

  function Periodic(interval: Duration): Schedule { Every(interval, None) }

  function PeriodicAt(first: Time, interval: Duration): Schedule { EveryAt(first, interval) }

  function OnceAfter(delay: Duration): Schedule { Once(delay, false) }

  function OnceAtInstant(at: Time): Schedule { OnceAt(at, false) }

  function DelayedBy(delay: Duration, inner: Schedule): Schedule { Delayed(delay, inner, false) }

  // ---- Next ----

  /** The slot both periodic schedules compute: `n := int64(after.Sub(anchor) / interval)`,
      then `anchor.Add(time.Duration(n+1) * interval)`. Increment and product may wrap. */
  function PeriodicSlot(anchor: Time, interval: Duration, after: Time): Time
    requires interval > 0
  {
    var n := TruncDiv(Sub(after, anchor), interval);
    anchor + Wrap(Wrap(n + 1) * interval)
  }

  function Next(s: Schedule, after: Time): (a: Answer)
    requires Valid(s)
    ensures Valid(a.schedule)
  {
    match s
    case Every(interval, anchor) =>
      var a := if anchor.Some? then anchor.value else after;
      Answer(Every(interval, Some(a)), Some(PeriodicSlot(a, interval, after)))
    case EveryAt(first, interval) =>
      Answer(s, Some(if after < first then first else PeriodicSlot(first, interval, after)))
    case Once(delay, scheduled) =>
      if scheduled then Answer(s, None) else Answer(Once(delay, true), Some(after + delay))
    case OnceAt(at, scheduled) =>
      if scheduled then Answer(s, None)
      else Answer(OnceAt(at, true), if at > after then Some(at) else None)
    case Delayed(delay, inner, started) =>
      if !started then Answer(Delayed(delay, inner, true), Some(after + delay))
      else
        var a := Next(inner, after);
        Answer(Delayed(delay, a.schedule, true), a.fire)
  }

  // ---- Periodic slots against an independent definition ----

  /** The naive search: step by `interval` from `slot` until past `after`. */
  ghost function FirstSlotPast(slot: Time, interval: Duration, after: Time): (r: Time)
    requires interval > 0
    ensures r > after && r >= slot
    ensures r > slot ==> r <= after + interval
    decreases after - slot
  {
    if slot > after then slot else FirstSlotPast(slot + interval, interval, after)
  }

  lemma {:induction false} SearchLandsOnMultiple(anchor: Time, interval: Duration, after: Time, k: nat)
    requires interval > 0 && after >= anchor
    requires k <= (after - anchor) / interval + 1
    ensures FirstSlotPast(anchor + k * interval, interval, after)
         == anchor + ((after - anchor) / interval + 1) * interval
    decreases (after - anchor) / interval + 1 - k
  {
    var n := (after - anchor) / interval;
    DivBounds(after - anchor, interval);
    if k <= n {
      MultipleOrder(n, k, interval);
      assert anchor + k * interval + interval == anchor + (k + 1) * interval;
      SearchLandsOnMultiple(anchor, interval, after, k + 1);
    }
  }

  /** While neither the increment nor the product wraps, the slot is the plain multiple. */
  lemma SlotOfQuotient(anchor: Time, interval: Duration, after: Time, n: int)
    requires interval > 0 && n == TruncDiv(Sub(after, anchor), interval)
    requires MIN_DURATION <= n + 1 <= MAX_DURATION
    requires MIN_DURATION <= (n + 1) * interval <= MAX_DURATION
    ensures PeriodicSlot(anchor, interval, after) == anchor + (n + 1) * interval
  {
    WrapIdentity(n + 1);
    WrapIdentity((n + 1) * interval);
  }

  lemma SlotWithinRange(anchor: Time, interval: Duration, after: Time)
    requires interval > 0 && 0 <= after - anchor < LastMultiple(interval)
    ensures PeriodicSlot(anchor, interval, after) == anchor + ((after - anchor) / interval + 1) * interval
    ensures after < PeriodicSlot(anchor, interval, after) <= after + interval
  {
    var d := after - anchor;
    NextMultipleFits(d, MAX_DURATION, interval);
    SlotOfQuotient(anchor, interval, after, d / interval);
    hide *;
  }

  /** Past the last multiple the product wraps, and the slot falls before the anchor and stays
      there. */
  lemma SlotPastRange(anchor: Time, interval: Duration, after: Time)
    requires interval > 0 && after - anchor >= LastMultiple(interval)
    ensures PeriodicSlot(anchor, interval, after) < anchor
    ensures PeriodicSlot(anchor, interval, after)
         == anchor + (MAX_DURATION / interval + 1) * interval - TWO_TO_THE_64
  {
    var d, m := Sub(after, anchor), MAX_DURATION / interval;
    DivBounds(MAX_DURATION, interval);
    assert m * interval <= d < (m + 1) * interval;
    QuotientIsUnique(d, interval, m);
    var p := (m + 1) * interval;
    assert p == m * interval + interval;
    WrapOverflow(p);
    if interval == 1 {
      assert m == MAX_DURATION;
      WrapOverflow(m + 1);
      WrapIdentity(MIN_DURATION);
      assert Wrap(m + 1) * interval == MIN_DURATION;
    } else {
      assert m <= MAX_DURATION / 2;
      WrapIdentity(m + 1);
    }
  }

  /** Before the anchor truncation rounds the wrong way, by less than two intervals. */
  lemma SlotBeforeAnchor(anchor: Time, interval: Duration, after: Time)
    requires interval > 0 && after < anchor
    ensures PeriodicSlot(anchor, interval, after)
         == anchor + (TruncDiv(Sub(after, anchor), interval) + 1) * interval
    ensures after + interval <= PeriodicSlot(anchor, interval, after) <= anchor + interval
    ensures MIN_DURATION <= after - anchor ==> PeriodicSlot(anchor, interval, after) < after + 2 * interval
  {
    var d: int := Sub(after, anchor);
    TruncationOvershoots(d, interval);
    SlotOfQuotient(anchor, interval, after, TruncDiv(d, interval));
  }

  /** The contract "strictly after `after`" holds of a periodic slot exactly while the clock
      has not passed the last multiple of the interval that a duration can hold. */
  lemma PeriodicSlotIsLaterIff(anchor: Time, interval: Duration, after: Time)
    requires interval > 0
    ensures PeriodicSlot(anchor, interval, after) > after <==> after - anchor < LastMultiple(interval)
  {
    DivBounds(MAX_DURATION, interval);
    MultipleOrder(0, MAX_DURATION / interval + 1, interval);
    assert LastMultiple(interval) >= 0;
    if after < anchor {
      SlotBeforeAnchor(anchor, interval, after);
    } else if after - anchor < LastMultiple(interval) {
      SlotWithinRange(anchor, interval, after);
    } else {
      SlotPastRange(anchor, interval, after);
    }
  }

  /** The closed form is the naive search exactly while the clock is less than one interval
      before the anchor and short of the last multiple after it. */
  lemma PeriodicSlotIsSearchIff(anchor: Time, interval: Duration, after: Time)
    requires interval > 0
    ensures PeriodicSlot(anchor, interval, after) == FirstSlotPast(anchor + interval, interval, after)
       <==> -(interval as int) < after - anchor < LastMultiple(interval)
  {
    var d := after - anchor;
    DivBounds(MAX_DURATION, interval);
    MultipleOrder(0, MAX_DURATION / interval + 1, interval);
    if 0 <= d {
      assert anchor + 1 * interval == anchor + interval;
      SearchLandsOnMultiple(anchor, interval, after, 1);
      if d < LastMultiple(interval) {
        SlotWithinRange(anchor, interval, after);
      } else {
        SlotPastRange(anchor, interval, after);
      }
    } else {
      SlotBeforeAnchor(anchor, interval, after);
      MultipleOrder(TruncDiv(Sub(after, anchor), interval) + 1, 1, interval);
      TruncZeroIff(Sub(after, anchor), interval);
    }
  }

  /** The machine's slot is the unbounded-integer slot exactly under these bounds. */
  lemma PeriodicSlotIsIntegerSlotIff(anchor: Time, interval: Duration, after: Time)
    requires interval > 0
    ensures PeriodicSlot(anchor, interval, after) == anchor + (TruncDiv(after - anchor, interval) + 1) * interval
       <==> (after >= anchor ==> after - anchor < LastMultiple(interval))
            && (after - anchor < MIN_DURATION ==> (anchor - after) / interval == (0 - MIN_DURATION) / interval)
  {
    var d := after - anchor;
    if 0 <= d {
      DivBounds(d, interval);
      MultipleAtLeastFactor(d / interval + 1, interval);
      if d < LastMultiple(interval) {
        SlotWithinRange(anchor, interval, after);
      } else {
        SlotPastRange(anchor, interval, after);
      }
    } else {
      SlotBeforeAnchor(anchor, interval, after);
      var m, n := TruncDiv(Sub(after, anchor), interval) + 1, TruncDiv(d, interval) + 1;
      MultipleOrder(m, n, interval);
      MultipleOrder(n, m, interval);
    }
  }

  /** One more interval fitting in a duration is enough for both bounds. */
  lemma OneMoreIntervalIsEnough(anchor: Time, interval: Duration, after: Time)
    requires interval > 0 && after >= anchor && after - anchor + interval <= MAX_DURATION
    ensures after - anchor < LastMultiple(interval)
    ensures PeriodicSlot(anchor, interval, after) == anchor + ((after - anchor) / interval + 1) * interval
  {
    var n, m := (after - anchor) / interval, MAX_DURATION / interval;
    DivBounds(after - anchor, interval);
    DivBounds(MAX_DURATION, interval);
    assert (n + 1) * interval == n * interval + interval;
    MultipleOrder(n + 1, m + 1, interval);
    if n + 1 < m {
      MultipleOrder(n + 1, m, interval);
    }
    SlotWithinRange(anchor, interval, after);
  }

  /** `PeriodicAt` answers the first of first, first+interval, first+2*interval, … that is
      past `after`, exactly while the clock is short of the last multiple. */
  lemma PeriodicAtIsSearchIff(first: Time, interval: Duration, after: Time)
    requires interval > 0
    ensures Next(PeriodicAt(first, interval), after).fire == Some(FirstSlotPast(first, interval, after))
       <==> after - first < LastMultiple(interval)
  {
    if after >= first {
      assert FirstSlotPast(first, interval, after) == FirstSlotPast(first + interval, interval, after);
      PeriodicSlotIsSearchIff(first, interval, after);
    } else {
      DivBounds(MAX_DURATION, interval);
      MultipleAtLeastFactor(MAX_DURATION / interval, interval);
    }
  }

  // ---- The contract of Next over every schedule ----

  /** The guard under which the next answer is strictly later than `after`. */
  predicate InRange(s: Schedule, after: Time)
    requires Valid(s)
  {
    match s
    case Every(interval, anchor) => anchor.Some? ==> after - anchor.value < LastMultiple(interval)
    case EveryAt(first, interval) => after - first < LastMultiple(interval)
    case Once(delay, scheduled) => scheduled || delay > 0
    case OnceAt(_, _) => true
    case Delayed(delay, inner, started) => if started then InRange(inner, after) else delay > 0
  }

  /** Every schedule keeps the interface's promise exactly while it is in range. */
  lemma {:induction false} NextIsLaterIff(s: Schedule, after: Time)
    requires Valid(s)
    ensures var fire := Next(s, after).fire;
            (fire.Some? ==> fire.value > after) <==> InRange(s, after)
  {
    match s
    case Every(interval, anchor) =>
      var a := if anchor.Some? then anchor.value else after;
      PeriodicSlotIsLaterIff(a, interval, after);
      DivBounds(MAX_DURATION, interval);
      MultipleAtLeastFactor(MAX_DURATION / interval, interval);
    case EveryAt(first, interval) =>
      PeriodicSlotIsLaterIff(first, interval, after);
      DivBounds(MAX_DURATION, interval);
      MultipleAtLeastFactor(MAX_DURATION / interval, interval);
    case Once(_, _) =>
    case OnceAt(_, _) =>
    case Delayed(_, inner, started) =>
      if started {
        NextIsLaterIff(inner, after);
      }
  }
}
