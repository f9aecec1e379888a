/** A schedule driven as the runner drives it: one call of `Next` per clock reading. The
    first reading is taken at Start, every later one after a run of the job has returned. */
module Firing {
  import opened GoTime
  import opened Wrappers
  import opened Schedules

  /** The schedule once it has been asked at every reading. */
  function After(s: Schedule, readings: seq<Time>): (r: Schedule)
    requires Valid(s)
    ensures Valid(r)
  {
    if readings == [] then s
    else Next(After(s, readings[..|readings| - 1]), readings[|readings| - 1]).schedule
  }

  /** The answer to the last reading. */
  function Fire(s: Schedule, readings: seq<Time>): Option<Time>
    requires Valid(s) && readings != []
  {
    Next(After(s, readings[..|readings| - 1]), readings[|readings| - 1]).fire
  }

  lemma AskedOnceMore(s: Schedule, readings: seq<Time>, t: Time)
    requires Valid(s)
    ensures After(s, readings + [t]) == Next(After(s, readings), t).schedule
    ensures Fire(s, readings + [t]) == Next(After(s, readings), t).fire
  {
    assert (readings + [t])[..|readings|] == readings;
  }

  /** The runner asks again only once it has run: each reading but the first follows an
      answer and is not before it. */
  ghost predicate Causal(s: Schedule, readings: seq<Time>)
    requires Valid(s)
  {
    forall k {:trigger readings[..k]} :: 0 < k < |readings| ==>
      Fire(s, readings[..k]).Some? && Fire(s, readings[..k]).value <= readings[k]
  }

  // ---- Exhaustion ----

  /** How many more answers a schedule can give; None for the periodic ones. */
  function Budget(s: Schedule): Option<nat> {
    match s
    case Every(_, _) => None
    case EveryAt(_, _) => None
    case Once(_, scheduled) => Some(if scheduled then 0 else 1)
    case OnceAt(_, scheduled) => Some(if scheduled then 0 else 1)
    case Delayed(_, inner, started) =>
      match Budget(inner)
      case None => None
      case Some(n) => Some(if started then n else n + 1)
  }

  lemma {:induction false} NextSpendsBudget(s: Schedule, after: Time)
    requires Valid(s)
    ensures var a := Next(s, after);
            match Budget(s)
            case None => a.fire.Some? && Budget(a.schedule).None?
            case Some(n) => Budget(a.schedule) == Some(if a.fire.Some? then n - 1 else 0)
                            && (a.fire.Some? ==> n > 0)
  {
    if s.Delayed? && s.started {
      NextSpendsBudget(s.inner, after);
    }
  }

  /** The number of readings that were answered. */
  function Answered(s: Schedule, readings: seq<Time>): nat
    requires Valid(s)
  {
    if readings == [] then 0
    else Answered(s, readings[..|readings| - 1]) + if Fire(s, readings).Some? then 1 else 0
  }

  lemma {:induction false} AnswersSpendBudget(s: Schedule, readings: seq<Time>)
    requires Valid(s) && Budget(s).Some?
    ensures Budget(After(s, readings)).Some?
    ensures Answered(s, readings) + Budget(After(s, readings)).value <= Budget(s).value
  {
    if readings != [] {
      var before := readings[..|readings| - 1];
      AnswersSpendBudget(s, before);
      NextSpendsBudget(After(s, before), readings[|readings| - 1]);
    }
  }

  /** Once a schedule has answered ok == false it answers ok == false for ever. */
  lemma {:induction false} ExhaustionIsPermanent(s: Schedule, readings: seq<Time>, more: seq<Time>)
    requires Valid(s) && readings != [] && Fire(s, readings).None?
    ensures Fire(s, readings + more).None?
    ensures Budget(After(s, readings + more)) == Some(0)
    decreases |more|
  {
    var all := readings + more;
    var before := all[..|all| - 1];
    if more == [] {
      assert all == readings;
    } else {
      assert before == readings + more[..|more| - 1];
      ExhaustionIsPermanent(s, readings, more[..|more| - 1]);
    }
    NextSpendsBudget(After(s, before), all[|all| - 1]);
  }

  // ---- Delayed, to any depth ----

  /** `Delayed` applied once per delay, the first delay outermost. */
  function Nest(delays: seq<Duration>, base: Schedule): (s: Schedule)
    ensures Valid(s) == Valid(base)
  {
    if delays == [] then base else DelayedBy(delays[0], Nest(delays[1..], base))
  }

  lemma {:induction false} DelayedHandsOver(delay: Duration, inner: Schedule, readings: seq<Time>)
    requires Valid(inner) && readings != []
    ensures After(DelayedBy(delay, inner), readings) == Delayed(delay, After(inner, readings[1..]), true)
    ensures Fire(DelayedBy(delay, inner), readings)
         == if |readings| == 1 then Some(readings[0] + delay) else Fire(inner, readings[1..])
  {
    if |readings| > 1 {
      var before := readings[..|readings| - 1];
      DelayedHandsOver(delay, inner, before);
      assert before[1..] == readings[1..][..|readings[1..]| - 1];
    }
  }

  /** The k-th delay counts from the k-th reading, which is the completion of the run before
      it and not that run's fire time; the base is first asked at the reading after them. */
  lemma {:induction false} NestedFire(delays: seq<Duration>, base: Schedule, readings: seq<Time>)
    requires Valid(base) && readings != []
    ensures Fire(Nest(delays, base), readings)
         == if |readings| <= |delays| then Some(readings[|readings| - 1] + delays[|readings| - 1])
            else Fire(base, readings[|delays|..])
  {
    if delays == [] {
      assert readings[0..] == readings;
    } else {
      DelayedHandsOver(delays[0], Nest(delays[1..], base), readings);
      if |readings| > 1 {
        NestedFire(delays[1..], base, readings[1..]);
        if |readings| > |delays| {
          assert readings[1..][|delays[1..]|..] == readings[|delays|..];
        }
      }
    }
  }

  lemma {:induction false} NestBudget(delays: seq<Duration>, base: Schedule)
    requires Budget(base).Some?
    ensures Budget(Nest(delays, base)) == Some(Budget(base).value + |delays|)
  {
    if delays != [] {
      NestBudget(delays[1..], base);
    }
  }

  /** A one-shot answers its first reading or none. */
  lemma OneShotAnswersFirstOnly(base: Schedule, readings: seq<Time>)
    requires base.Once? || base.OnceAt?
    requires |readings| > 1
    ensures Fire(base, readings).None?
  {
    var before := readings[..|readings| - 1];
    OneShotIsSpent(base, before);
    NextSpendsBudget(After(base, before), readings[|readings| - 1]);
  }

  lemma OneShotFirstAnswer(base: Schedule, t: Time)
    requires (base.Once? || base.OnceAt?) && !base.scheduled
    ensures Fire(base, [t]) == if base.Once? then Some(t + base.delay) else if base.at > t then Some(base.at) else None
  {}

  lemma {:induction false} OneShotIsSpent(base: Schedule, readings: seq<Time>)
    requires base.Once? || base.OnceAt?
    requires readings != []
    ensures Budget(After(base, readings)) == Some(0)
  {
    var before := readings[..|readings| - 1];
    if before == [] {
      NextSpendsBudget(base, readings[0]);
    } else {
      OneShotIsSpent(base, before);
      NextSpendsBudget(After(base, before), readings[|readings| - 1]);
    }
  }

  /** What a nest over a one-shot answers: its delays, then the base once, then nothing. */
  lemma NestedOneShotFires(delays: seq<Duration>, base: Schedule, readings: seq<Time>)
    requires (base.Once? || base.OnceAt?) && !base.scheduled && readings != []
    ensures var last := readings[|readings| - 1];
            Fire(Nest(delays, base), readings)
              == if |readings| <= |delays| then Some(last + delays[|readings| - 1])
                 else if |readings| == |delays| + 1 then Fire(base, [last]) else None
  {
    NestedFire(delays, base, readings);
    if |readings| > |delays| + 1 {
      OneShotAnswersFirstOnly(base, readings[|delays|..]);
    } else if |readings| == |delays| + 1 {
      assert readings[|delays|..] == [readings[|readings| - 1]];
    }
    hide Fire;
  }

  lemma NestedOneShotAnswers(delays: seq<Duration>, base: Schedule, readings: seq<Time>)
    requires Valid(base) && Budget(base) == Some(1)
    ensures Answered(Nest(delays, base), readings) <= |delays| + 1
  {
    NestBudget(delays, base);
    AnswersSpendBudget(Nest(delays, base), readings);
  }

  /** `Once` under n Delayeds: what each call is answered, and so at most n+1 of them. */
  lemma OneShotUnderDelays(delays: seq<Duration>, delay: Duration, readings: seq<Time>)
    requires readings != []
    ensures var last := readings[|readings| - 1];
            Fire(Nest(delays, OnceAfter(delay)), readings)
              == if |readings| <= |delays| then Some(last + delays[|readings| - 1])
                 else if |readings| == |delays| + 1 then Some(last + delay) else None
    ensures Answered(Nest(delays, OnceAfter(delay)), readings) <= |delays| + 1
  {
    assert Answered(Nest(delays, OnceAfter(delay)), readings) <= |delays| + 1 by {
      NestedOneShotAnswers(delays, OnceAfter(delay), readings);
    }
    NestedOneShotFires(delays, OnceAfter(delay), readings);
    OneShotFirstAnswer(OnceAfter(delay), readings[|readings| - 1]);
    hide *;
  }

  /** `OnceAt` under n Delayeds: it is first asked at the n-th completion, and by then the
      instant may have passed. */
  lemma OneInstantUnderDelays(delays: seq<Duration>, at: Time, readings: seq<Time>)
    requires readings != []
    ensures var last := readings[|readings| - 1];
            Fire(Nest(delays, OnceAtInstant(at)), readings)
              == if |readings| <= |delays| then Some(last + delays[|readings| - 1])
                 else if |readings| == |delays| + 1 && at > last then Some(at) else None
    ensures Answered(Nest(delays, OnceAtInstant(at)), readings) <= |delays| + 1
  {
    assert Answered(Nest(delays, OnceAtInstant(at)), readings) <= |delays| + 1 by {
      NestedOneShotAnswers(delays, OnceAtInstant(at), readings);
    }
    NestedOneShotFires(delays, OnceAtInstant(at), readings);
    OneShotFirstAnswer(OnceAtInstant(at), readings[|readings| - 1]);
    hide *;
  }

  // ---- Periodic ----

  lemma {:induction false} PeriodicFire(interval: Duration, readings: seq<Time>)
    requires interval > 0 && readings != []
    ensures After(Periodic(interval), readings) == Every(interval, Some(readings[0]))
    ensures Fire(Periodic(interval), readings)
         == Some(PeriodicSlot(readings[0], interval, readings[|readings| - 1]))
  {
    if |readings| > 1 {
      PeriodicFire(interval, readings[..|readings| - 1]);
    }
  }

  lemma {:induction false} PeriodicAtState(first: Time, interval: Duration, readings: seq<Time>)
    requires interval > 0
    ensures After(PeriodicAt(first, interval), readings) == PeriodicAt(first, interval)
  {
    if readings != [] {
      PeriodicAtState(first, interval, readings[..|readings| - 1]);
    }
  }

  /** `Delayed` says its inner schedule anchors itself from the first fire. The second fire
      is one interval after the first exactly when the first run took no time at all. */
  lemma DelayedPeriodicAnchorsOnFireIff(delay: Duration, interval: Duration, start: Time, done: Time)
    requires interval > 0
    ensures var s := DelayedBy(delay, Periodic(interval));
            Fire(s, [start]) == Some(start + delay)
            && (Fire(s, [start, done]) == Some(start + delay + interval) <==> done == start + delay)
  {
    DelayedHandsOver(delay, Periodic(interval), [start]);
    DelayedHandsOver(delay, Periodic(interval), [start, done]);
    assert [start, done][1..] == [done];
    PeriodicFire(interval, [done]);
    DivBounds(MAX_DURATION, interval);
    MultipleAtLeastFactor(MAX_DURATION / interval, interval);
    SlotWithinRange(done, interval, done);
  }

  // ---- Staying in range ----

  /** The schedule, not asked before `lo`, stays in range at every reading up to `hi`: no
      periodic anchor is left a whole duration behind and no fixed instant is a duration
      ahead of `lo`. */
  predicate Fits(s: Schedule, lo: Time, hi: Time)
    requires Valid(s)
  {
    match s
    case Every(interval, anchor) =>
      if anchor.Some? then anchor.value <= lo && hi - anchor.value < LastMultiple(interval)
      else hi - lo < LastMultiple(interval)
    case EveryAt(first, interval) => first - lo <= MAX_DURATION && hi - first < LastMultiple(interval)
    case Once(delay, scheduled) => scheduled || delay > 0
    case OnceAt(at, scheduled) => scheduled || at - lo <= MAX_DURATION
    case Delayed(delay, inner, started) => (started || delay > 0) && Fits(inner, lo, hi)
  }

  lemma {:induction false} FitsLater(s: Schedule, lo: Time, t: Time, hi: Time)
    requires Valid(s) && lo <= t && Fits(s, lo, hi)
    ensures Fits(s, t, hi)
  {
    if s.Delayed? {
      FitsLater(s.inner, lo, t, hi);
    }
  }

  /** While it fits, a schedule answers strictly later than asked, by at most a duration. */
  lemma {:induction false} NextWhileFits(s: Schedule, lo: Time, hi: Time, t: Time)
    requires Valid(s) && lo <= t <= hi && Fits(s, lo, hi)
    ensures var a := Next(s, t);
            Fits(a.schedule, t, hi) && (a.fire.Some? ==> t < a.fire.value <= t + MAX_DURATION)
  {
    match s
    case Every(interval, anchor) =>
      SlotWithinRange(if anchor.Some? then anchor.value else t, interval, t);
    case EveryAt(first, interval) =>
      if t >= first {
        SlotWithinRange(first, interval, t);
      }
    case Once(_, _) =>
    case OnceAt(_, _) =>
    case Delayed(_, inner, started) =>
      if started {
        NextWhileFits(inner, lo, hi, t);
      } else {
        FitsLater(inner, lo, t, hi);
      }
  }
}
