/** What the schedules promise, of the runs that actually happen: theorems over every
    interleaving of the whole scheduler. */
module JobTheorems {
  import opened GoTime
  import opened Wrappers
  import opened Schedules
  import opened Firing
  import opened SlotAccounting
  import opened JobErrors
  import opened Protocol
  import opened JobRuns

  /** A timer is due at the instant it is for, up to the duration that `next.Sub(now)` saturates
      at; it is not due before that instant exactly when that is at most a duration away. */
  lemma ArmedOnTimeIff(r: Runner, now: Time, cancelled: bool)
    requires r.phase.Ready?
    ensures Advance(r, Arm, now, cancelled).phase.deadline >= r.phase.next
       <==> r.phase.next - now <= MAX_DURATION
    ensures Advance(r, Arm, now, cancelled).phase.deadline
         == if r.phase.next - now > MAX_DURATION then now + MAX_DURATION
            else if r.phase.next - now < MIN_DURATION then now + MIN_DURATION
            else r.phase.next
  {}

  lemma {:induction false} ReadingsOrdered(r: Runner, lo: Time, now: Time, hi: Time, j: nat, k: nat)
    requires Timed(r, lo, now, hi) && |r.readings| <= |r.log| + 1
    requires j <= k < |r.readings|
    ensures r.readings[j] <= r.readings[k]
    ensures j < k ==> r.log[j].end <= r.readings[k]
    decreases k - j
  {
    if j < k {
      assert RunTimed(r, j, now);
      ReadingsOrdered(r, lo, now, hi, j + 1, k);
    }
  }

  ghost function Runs(now: Time, hasHook: bool, run: seq<Action>): State
    requires CanRun(New(now, hasHook), run)
  {
    AfterRun(New(now, hasHook), run)
  }

  /** The runs of one runner follow one another. */
  ghost predicate Sequential(r: Runner, now: Time) {
    && (forall k {:trigger r.log[k]} :: 0 <= k < |r.log| ==> r.log[k].start <= r.log[k].end <= now)
    && (forall j, k :: 0 <= j < k < |r.log| ==> r.log[j].end <= r.log[k].start)
    && (r.phase.Running? ==>
          r.phase.start <= now && forall k {:trigger r.log[k]} :: 0 <= k < |r.log| ==> r.log[k].end <= r.phase.start)
  }

  ghost predicate AllSequential(s: State) {
    && |s.runners| <= |s.jobs|
    && forall i {:trigger s.runners[i]} :: 0 <= i < |s.runners| ==> Sequential(s.runners[i], s.now)
  }

  lemma AdvanceSequential(r: Runner, step: Step, now: Time, cancelled: bool)
    requires Advance.requires(r, step, now, cancelled) && Sequential(r, now)
    ensures Sequential(Advance(r, step, now, cancelled), now)
  {
    hide Next, Escalation;
    var t := Advance(r, step, now, cancelled);
    assert forall k {:trigger t.log[k]} :: 0 <= k < |r.log| ==> t.log[k] == r.log[k];
  }

  lemma {:induction false} SequentialAlways(s: State, run: seq<Action>)
    requires AllSequential(s) && CanRun(s, run)
    ensures AllSequential(AfterRun(s, run))
    decreases |run|
  {
    if run != [] {
      var a := run[0];
      var t := Apply(s, a);
      JobsGrow(s, a);
      if a.Go? {
        AdvanceSequential(s.runners[a.runner], a.step, s.now, s.runCtx.Some?);
      } else {
        OthersLeaveRunners(s, a);
      }
      hide Apply, Advance, Enabled;
      assert forall i {:trigger t.runners[i]} :: 0 <= i < |t.runners| ==>
          (i < |s.runners| ==> Sequential(s.runners[i], s.now));
      SequentialAlways(t, run[1..]);
    }
  }

  /** In every interleaving, whatever the schedule, a job's runs do not overlap: each starts no
      earlier than all earlier ones have returned, the one in progress included. And an instant
      is strictly after the reading it was computed from exactly while the schedule is in
      range at that reading, the instant waited for or running included. */
  lemma RunsAreSerialized(now: Time, hasHook: bool, run: seq<Action>, i: nat)
    requires CanRun(New(now, hasHook), run)
    requires i < |Runs(now, hasHook, run).runners| <= |Runs(now, hasHook, run).jobs|
    ensures var s := Runs(now, hasHook, run);
            var r := s.runners[i];
            && (forall j, k :: 0 <= j < k < |Starts(r)| ==> r.log[j].end <= Starts(r)[k])
            && |Instants(r)| <= |r.readings|
            && (forall k {:trigger Instants(r)[k]} :: 0 <= k < |Instants(r)| ==>
                  (Instants(r)[k] > r.readings[k]
                   <==> InRange(After(s.jobs[i].schedule, r.readings[..k]), r.readings[k])))
  {
    SequentialAlways(New(now, hasHook), run);
    FollowAlways(New(now, hasHook), run);
    var s := Runs(now, hasHook, run);
    var r := s.runners[i];
    assert Sequential(r, s.now) && Follows(s.jobs[i].schedule, r);
    forall j, k | 0 <= j < k < |Starts(r)|
      ensures r.log[j].end <= Starts(r)[k]
    {
      if k < |r.log| {
        assert Starts(r)[k] == r.log[k].start;
      }
    }
    forall k {:trigger Instants(r)[k]} | 0 <= k < |Instants(r)|
      ensures Instants(r)[k] > r.readings[k]
         <==> InRange(After(s.jobs[i].schedule, r.readings[..k]), r.readings[k])
    {
      InstantsAreAnswers(s.jobs[i].schedule, r, k);
      assert r.readings[..k + 1] == r.readings[..k] + [r.readings[k]];
      AskedOnceMore(s.jobs[i].schedule, r.readings[..k], r.readings[k]);
      NextIsLaterIff(After(s.jobs[i].schedule, r.readings[..k]), r.readings[k]);
    }
  }

  /** Job i has a runner, its schedule stays in range, and the clock is not past `hi`. */
  ghost predicate InSpan(now: Time, hasHook: bool, run: seq<Action>, i: nat, hi: Time) {
    && CanRun(New(now, hasHook), run)
    && var s := Runs(now, hasHook, run);
       i < |s.runners| <= |s.jobs| && s.now <= hi && Fits(s.jobs[i].schedule, now, hi)
  }

  lemma SpanIsTimed(now: Time, hasHook: bool, run: seq<Action>, i: nat, hi: Time)
    requires InSpan(now, hasHook, run, i, hi)
    ensures var s := Runs(now, hasHook, run);
            Follows(s.jobs[i].schedule, s.runners[i]) && Timed(s.runners[i], now, s.now, hi)
  {
    TimedAlways(New(now, hasHook), run, now, hi);
    var s := Runs(now, hasHook, run);
    assert s.runners[i] == s.runners[i];
  }

  /** The k-th instant is after the reading it was computed from, and its run not before it. */
  lemma InstantIsTimed(s: LiveSchedule, r: Runner, lo: Time, now: Time, hi: Time, k: nat)
    requires Follows(s, r) && Timed(r, lo, now, hi) && k < |Instants(r)|
    ensures k < |r.readings| && r.readings[k] < Instants(r)[k]
    ensures k < |Starts(r)| ==> Instants(r)[k] <= Starts(r)[k] <= now
  {
    hide Fits, After, Fire;
    if k < |r.log| {
      assert RunTimed(r, k, now);
    }
  }

  /** In every interleaving a job never overlaps itself: each run starts at its instant or
      later, and every instant, and so every start, is strictly after all earlier runs of the
      job have returned. The run in progress and the instant waited for are included. */
  lemma RunsNeverOverlap(now: Time, hasHook: bool, run: seq<Action>, i: nat, hi: Time)
    requires InSpan(now, hasHook, run, i, hi)
    ensures var r := Runs(now, hasHook, run).runners[i];
            && |r.log| <= |Starts(r)| <= |Instants(r)|
            && (forall k {:trigger Starts(r)[k]} :: 0 <= k < |Starts(r)| ==> Instants(r)[k] <= Starts(r)[k])
            && (forall k {:trigger r.log[k]} :: 0 <= k < |r.log| ==> Starts(r)[k] <= r.log[k].end)
            && (forall j, k :: 0 <= j < k < |Instants(r)| ==> r.log[j].end < Instants(r)[k])
  {
    SpanIsTimed(now, hasHook, run, i, hi);
    var s := Runs(now, hasHook, run);
    var r := s.runners[i];
    forall k | 0 <= k < |Instants(r)|
      ensures r.readings[k] < Instants(r)[k]
      ensures k < |Starts(r)| ==> Instants(r)[k] <= Starts(r)[k]
      ensures k < |r.log| ==> Starts(r)[k] <= r.log[k].end
    {
      InstantIsTimed(s.jobs[i].schedule, r, now, s.now, hi, k);
      assert k < |r.log| ==> RunTimed(r, k, s.now);
    }
    forall j, k | 0 <= j < k < |Instants(r)|
      ensures r.log[j].end < Instants(r)[k]
    {
      ReadingsOrdered(r, now, s.now, hi, j, k);
    }
  }

  /** The readings of a `Periodic` job form the run that slot accounting is about, and its
      k-th instant, waited for, running or run, is the k-th slot fired. */
  lemma PeriodicJobIsAccounted(now: Time, hasHook: bool, run: seq<Action>, i: nat, hi: Time, interval: Duration)
    requires InSpan(now, hasHook, run, i, hi)
    requires interval > 0 && Runs(now, hasHook, run).jobs[i].schedule == Periodic(interval)
    ensures var r := Runs(now, hasHook, run).runners[i];
            && (r.readings != [] ==> PeriodicRun(interval, r.readings))
            && |Starts(r)| <= |Instants(r)| <= |r.readings|
            && (forall k {:trigger Instants(r)[k]} :: 0 <= k < |Instants(r)| ==>
                  Instants(r)[k] == SlotInstant(interval, r.readings, SlotOf(interval, r.readings, k)))
  {
    SpanIsTimed(now, hasHook, run, i, hi);
    var s := Runs(now, hasHook, run);
    var r, p := s.runners[i], Periodic(interval);
    if r.readings != [] {
      ReadingsAreCausal(p, r, now, s.now, hi);
      assert r.readings[0] >= now && r.readings[|r.readings| - 1] <= s.now;
      forall k {:trigger Instants(r)[k]} | 0 <= k < |Instants(r)|
        ensures Instants(r)[k] == SlotInstant(interval, r.readings, SlotOf(interval, r.readings, k))
      {
        InstantsAreAnswers(p, r, k);
        AnswerIsSlot(interval, r.readings, k);
      }
    }
  }

  lemma ReadingsAreCausal(s: LiveSchedule, r: Runner, lo: Time, now: Time, hi: Time)
    requires Follows(s, r) && Timed(r, lo, now, hi)
    ensures Causal(s, r.readings) && NonDecreasing(r.readings)
  {
    forall k {:trigger r.readings[..k]} | 0 < k < |r.readings|
      ensures Fire(s, r.readings[..k]).Some? && Fire(s, r.readings[..k]).value <= r.readings[k]
    {
      assert r.log[k - 1] == r.log[k - 1];
      assert RunTimed(r, k - 1, now);
    }
    forall j, k | 0 <= j <= k < |r.readings|
      ensures r.readings[j] <= r.readings[k]
    {
      ReadingsOrdered(r, lo, now, hi, j, k);
    }
  }

  /** The rate bound: the j-th start (from one) of a `Periodic(i)` job anchored at a is not
      before a + j * i, so at most (t - a) / i runs have started by any instant t, whether or
      not the last of them has returned. */
  lemma PeriodicStarts(now: Time, hasHook: bool, run: seq<Action>, i: nat, hi: Time, interval: Duration,
                       k: nat, t: Time)
    requires InSpan(now, hasHook, run, i, hi)
    requires interval > 0 && Runs(now, hasHook, run).jobs[i].schedule == Periodic(interval)
    requires k < |Starts(Runs(now, hasHook, run).runners[i])|
    ensures var r := Runs(now, hasHook, run).runners[i];
            && r.readings != [] && Starts(r)[k] >= r.readings[0] + (k + 1) * interval
            && (Starts(r)[k] <= t ==> k + 1 <= (t - r.readings[0]) / interval)
  {
    RunsNeverOverlap(now, hasHook, run, i, hi);
    PeriodicJobIsAccounted(now, hasHook, run, i, hi, interval);
    var r := Runs(now, hasHook, run).runners[i];
    assert Instants(r)[k] <= Starts(r)[k];
    AnswerIsSlot(interval, r.readings, k);
    PeriodicRate(interval, r.readings, k, t);
  }

  /** The j-th start of a `PeriodicAt(first, i)` job is not before first + (j - 1) * i. */
  lemma PeriodicAtStarts(now: Time, hasHook: bool, run: seq<Action>, i: nat, hi: Time,
                         first: Time, interval: Duration, k: nat)
    requires InSpan(now, hasHook, run, i, hi)
    requires interval > 0 && Runs(now, hasHook, run).jobs[i].schedule == PeriodicAt(first, interval)
    requires k < |Starts(Runs(now, hasHook, run).runners[i])|
    ensures Starts(Runs(now, hasHook, run).runners[i])[k] >= first + k * interval
  {
    SpanIsTimed(now, hasHook, run, i, hi);
    var s := Runs(now, hasHook, run);
    var r := s.runners[i];
    ReadingsAreCausal(s.jobs[i].schedule, r, now, s.now, hi);
    InstantIsTimed(s.jobs[i].schedule, r, now, s.now, hi, k);
    InstantsAreAnswers(s.jobs[i].schedule, r, k);
    assert r.readings[|r.readings| - 1] <= s.now;
    PeriodicAtRate(first, interval, r.readings, k);
  }

  lemma {:induction false} EveryReadingAnswered(s: Schedule, readings: seq<Time>)
    requires Valid(s)
    requires forall k {:trigger readings[..k + 1]} :: 0 <= k < |readings| ==> Fire(s, readings[..k + 1]).Some?
    ensures Answered(s, readings) == |readings|
  {
    if readings != [] {
      var before := readings[..|readings| - 1];
      assert readings[..|before| + 1] == readings;
      forall k {:trigger before[..k + 1]} | 0 <= k < |before|
        ensures Fire(s, before[..k + 1]).Some?
      {
        assert before[..k + 1] == readings[..k + 1];
      }
      EveryReadingAnswered(s, before);
    }
  }

  /** A job whose schedule has m answers to give is never told of more than m instants, so its
      body is started at most m times, and once its runner has asked more often it has left
      the loop. */
  lemma BudgetBoundsRuns(now: Time, hasHook: bool, run: seq<Action>, i: nat, m: nat)
    requires CanRun(New(now, hasHook), run)
    requires var s := Runs(now, hasHook, run);
             i < |s.runners| <= |s.jobs| && Budget(s.jobs[i].schedule) == Some(m)
    ensures var r := Runs(now, hasHook, run).runners[i];
            && |r.log| <= |Starts(r)| <= |Instants(r)| <= m
            && (|r.readings| > m ==> r.phase.Exited?)
  {
    FollowAlways(New(now, hasHook), run);
    var s := Runs(now, hasHook, run);
    var schedule, r := s.jobs[i].schedule, s.runners[i];
    assert Follows(schedule, r);
    var asked := r.readings[..|Instants(r)|];
    forall k {:trigger asked[..k + 1]} | 0 <= k < |asked|
      ensures Fire(schedule, asked[..k + 1]).Some?
    {
      InstantsAreAnswers(schedule, r, k);
      assert asked[..k + 1] == r.readings[..k + 1];
    }
    EveryReadingAnswered(schedule, asked);
    AnswersSpendBudget(schedule, asked);
  }

  /** A one-shot of either kind, a base with one answer, under n Delayeds starts at most n + 1
      runs, and then its runner leaves the loop. */
  lemma OneShotJobRuns(now: Time, hasHook: bool, run: seq<Action>, i: nat, delays: seq<Duration>, base: Schedule)
    requires CanRun(New(now, hasHook), run)
    requires Budget(base) == Some(1)
    requires var s := Runs(now, hasHook, run);
             i < |s.runners| <= |s.jobs| && s.jobs[i].schedule == Nest(delays, base)
    ensures var r := Runs(now, hasHook, run).runners[i];
            |Starts(r)| <= |delays| + 1 && (|r.readings| > |delays| + 1 ==> r.phase.Exited?)
  {
    NestBudget(delays, base);
    BudgetBoundsRuns(now, hasHook, run, i, |delays| + 1);
  }
}
