/** The runs of each job, over every interleaving: they are those its schedule answers to the
    runner's clock readings, they are ordered in time, and a periodic job keeps its rate. */
module JobRuns {
  import opened GoTime
  import opened Wrappers
  import opened Schedules
  import opened Firing
  import opened Protocol

  // ---- Runs follow the schedule ----

  /** A runner of a job whose schedule was `s` when it was added. */
  ghost predicate Follows(s: LiveSchedule, r: Runner) {
    && r.schedule == After(s, r.readings)
    && |r.log| <= |r.readings| <= |r.log| + 1
    && (forall k {:trigger r.log[k]} :: 0 <= k < |r.log| ==>
          Fire(s, r.readings[..k + 1]) == Some(r.log[k].slot))
    && match r.phase
       case Ready(next) => |r.readings| == |r.log| + 1 && Fire(s, r.readings) == Some(next)
       case Armed(next, _, _) => |r.readings| == |r.log| + 1 && Fire(s, r.readings) == Some(next)
       case Running(next, _, _) => |r.readings| == |r.log| + 1 && Fire(s, r.readings) == Some(next)
       case Exited => true
       case _ => |r.readings| == |r.log|
  }

  lemma AdvanceFollows(s: LiveSchedule, r: Runner, step: Step, now: Time, cancelled: bool)
    requires Advance.requires(r, step, now, cancelled) && Follows(s, r)
    ensures Follows(s, Advance(r, step, now, cancelled))
  {
    hide After, Fire, Next;
    if step.Ask? {
      AskedOnceMore(s, r.readings, now);
    }
    var t := Advance(r, step, now, cancelled);
    forall k {:trigger t.log[k]} | 0 <= k < |t.log|
      ensures Fire(s, t.readings[..k + 1]) == Some(t.log[k].slot)
    {
      if k < |r.log| {
        assert t.log[k] == r.log[k];
        assert t.readings[..k + 1] == r.readings[..k + 1];
      } else {
        assert t.readings[..k + 1] == r.readings;
      }
    }
  }

  ghost predicate AllFollow(s: State) {
    && |s.runners| <= |s.jobs|
    && forall i {:trigger s.runners[i]} :: 0 <= i < |s.runners| ==> Follows(s.jobs[i].schedule, s.runners[i])
  }

  lemma FollowKept(s: State, a: Action)
    requires AllFollow(s) && Enabled(s, a)
    ensures AllFollow(Apply(s, a))
  {
    var t := Apply(s, a);
    if a.Go? {
      AdvanceFollows(s.jobs[a.runner].schedule, s.runners[a.runner], a.step, s.now, s.runCtx.Some?);
    } else {
      OthersLeaveRunners(s, a);
    }
    JobsGrow(s, a);
    hide Apply, Enabled, Follows, Advance;
    forall i {:trigger t.runners[i]} | 0 <= i < |t.runners|
      ensures Follows(t.jobs[i].schedule, t.runners[i])
    {
      if i < |s.runners| {
        assert Follows(s.jobs[i].schedule, s.runners[i]);
      } else {
        SpawnedFollows(s);
      }
    }
  }

  lemma SpawnedFollows(s: State)
    requires |s.runners| < |s.jobs|
    ensures Follows(s.jobs[|s.runners|].schedule, Spawned(s))
  {}

  /** The runner after its step. */
  function Moved(s: State, i: nat, step: Step): Runner
    requires i < |s.runners| && StepEnabled(s, i, step)
  {
    Advance(s.runners[i], step, s.now, s.runCtx.Some?)
  }

  lemma JobsGrow(s: State, a: Action)
    requires Enabled(s, a) && |s.runners| <= |s.jobs|
    ensures s.jobs <= Apply(s, a).jobs && |Apply(s, a).runners| <= |Apply(s, a).jobs|
    ensures a.Go? ==>
              && Apply(s, a).runners == s.runners[a.runner := Moved(s, a.runner, a.step)]
              && Apply(s, a).jobs == s.jobs && Apply(s, a).now == s.now
  {
    hide Advance, AddOutcome, Cancel;
  }

  lemma {:induction false} FollowAlways(s: State, run: seq<Action>)
    requires AllFollow(s) && CanRun(s, run)
    ensures AllFollow(AfterRun(s, run))
    decreases |run|
  {
    if run != [] {
      FollowKept(s, run[0]);
      FollowAlways(Apply(s, run[0]), run[1..]);
    }
  }

  /** The instants a runner has been told to fire at, in order. */
  function Instants(r: Runner): seq<Time> {
    seq(|r.log|, k requires 0 <= k < |r.log| => r.log[k].slot)
    + match r.phase
      case Ready(next) => [next]
      case Armed(next, _, _) => [next]
      case Running(next, _, _) => [next]
      case _ => []
  }

  /** When the bodies of a runner's runs have started, in order, the one in progress included. */
  function Starts(r: Runner): seq<Time> {
    seq(|r.log|, k requires 0 <= k < |r.log| => r.log[k].start)
    + if r.phase.Running? then [r.phase.start] else []
  }

  lemma InstantsAreAnswers(s: LiveSchedule, r: Runner, k: nat)
    requires Follows(s, r) && k < |Instants(r)|
    ensures k < |r.readings| && Fire(s, r.readings[..k + 1]) == Some(Instants(r)[k])
  {
    if k < |r.log| {
      assert r.log[k].slot == Instants(r)[k];
    } else {
      assert r.readings[..k + 1] == r.readings;
    }
  }

  /** Two jobs with the same schedule whose runners have read the same clock values up to the
      k-th are scheduled at the same k-th instant: in whatever two interleavings, with whatever
      mix of nil, error and panic their bodies produced. */
  lemma ResultsDoNotMoveInstants(run: seq<Action>, i: nat, run': seq<Action>, i': nat, hook: bool, hook': bool,
                                 now: Time, now': Time)
    requires CanRun(New(now, hook), run) && CanRun(New(now', hook'), run')
    requires var s, s' := AfterRun(New(now, hook), run), AfterRun(New(now', hook'), run');
             && i < |s.runners| <= |s.jobs| && i' < |s'.runners| <= |s'.jobs|
             && s.jobs[i].schedule == s'.jobs[i'].schedule
    ensures var r, r' := AfterRun(New(now, hook), run).runners[i], AfterRun(New(now', hook'), run').runners[i'];
            && |Instants(r)| <= |r.readings| && |Instants(r')| <= |r'.readings|
            && forall k :: 0 <= k < |Instants(r)| && k < |Instants(r')| && r.readings[..k + 1] == r'.readings[..k + 1]
                 ==> Instants(r)[k] == Instants(r')[k]
  {
    var s, s' := AfterRun(New(now, hook), run), AfterRun(New(now', hook'), run');
    FollowAlways(New(now, hook), run);
    FollowAlways(New(now', hook'), run');
    var r, r' := s.runners[i], s'.runners[i'];
    assert Follows(s.jobs[i].schedule, r) && Follows(s'.jobs[i'].schedule, r');
    forall k | 0 <= k < |Instants(r)| && k < |Instants(r')| && r.readings[..k + 1] == r'.readings[..k + 1]
      ensures Instants(r)[k] == Instants(r')[k]
    {
      InstantsAreAnswers(s.jobs[i].schedule, r, k);
      InstantsAreAnswers(s.jobs[i].schedule, r', k);
    }
  }

  // ---- Runs are ordered in time ----

  function LastReading(r: Runner, lo: Time): Time {
    if r.readings == [] then lo else r.readings[|r.readings| - 1]
  }

  /** The k-th run: due strictly after the reading it was computed from, started at its instant
      or later, and returned before the clock was read again. */
  ghost predicate RunTimed(r: Runner, k: nat, now: Time)
    requires k < |r.log| <= |r.readings|
  {
    var run := r.log[k];
    && r.readings[k] < run.slot <= run.start <= run.end <= now
    && (k + 1 < |r.readings| ==> run.end <= r.readings[k + 1])
  }

  /** A runner that has read the clock only between `lo` and `now`. */
  ghost predicate Timed(r: Runner, lo: Time, now: Time, hi: Time) {
    var last := LastReading(r, lo);
    && lo <= last <= now
    && (forall k :: 0 <= k < |r.readings| ==> lo <= r.readings[k] <= now)
    && |r.log| <= |r.readings|
    && (forall k :: 0 <= k < |r.log| ==> RunTimed(r, k, now))
    && Fits(r.schedule, last, hi)
    && match r.phase
       case Ready(next) => last < next <= last + MAX_DURATION
       case Armed(next, deadline, _) => last < next <= deadline
       case Running(next, start, _) => last < next <= start <= now
       case _ => true
  }

  lemma TimedLater(r: Runner, lo: Time, now: Time, now': Time, hi: Time)
    requires Timed(r, lo, now, hi) && now <= now'
    ensures Timed(r, lo, now', hi)
  {
    forall k | 0 <= k < |r.log|
      ensures RunTimed(r, k, now')
    {
      assert RunTimed(r, k, now);
    }
  }

  lemma AdvanceTimed(s: LiveSchedule, r: Runner, step: Step, lo: Time, now: Time, cancelled: bool, hi: Time)
    requires Advance.requires(r, step, now, cancelled) && Follows(s, r)
    requires Timed(r, lo, now, hi) && now <= hi
    ensures Timed(Advance(r, step, now, cancelled), lo, now, hi)
  {
    hide After, Fire, Fits;
    var t := Advance(r, step, now, cancelled);
    if step.Ask? {
      NextWhileFits(r.schedule, LastReading(r, lo), hi, now);
    }
    hide Next;
    forall k | 0 <= k < |t.log|
      ensures RunTimed(t, k, now)
    {
      if k < |r.log| {
        assert t.log[k] == r.log[k];
        assert RunTimed(r, k, now);
      }
    }
  }

  /** Every job whose schedule fits the span has a timed runner. */
  ghost predicate AllTimed(s: State, lo: Time, hi: Time) {
    && AllFollow(s)
    && lo <= s.now
    && forall i {:trigger s.runners[i]} :: 0 <= i < |s.runners| ==>
         Fits(s.jobs[i].schedule, lo, hi) ==> Timed(s.runners[i], lo, s.now, hi)
  }

  lemma TimedKept(s: State, a: Action, lo: Time, hi: Time)
    requires AllTimed(s, lo, hi) && Enabled(s, a) && Apply(s, a).now <= hi
    ensures AllTimed(Apply(s, a), lo, hi)
  {
    FollowKept(s, a);
    JobsGrow(s, a);
    var t := Apply(s, a);
    if !a.Go? {
      OthersLeaveRunners(s, a);
    }
    forall i {:trigger t.runners[i]} | 0 <= i < |t.runners| && Fits(t.jobs[i].schedule, lo, hi)
      ensures Timed(t.runners[i], lo, t.now, hi)
    {
      if i == |s.runners| {
        SpawnedTimed(s, lo, hi);
      } else {
        assert Timed(s.runners[i], lo, s.now, hi);
        if a.Go? && a.runner == i {
          AdvanceTimed(s.jobs[i].schedule, s.runners[i], a.step, lo, s.now, s.runCtx.Some?, hi);
        } else {
          TimedLater(s.runners[i], lo, s.now, t.now, hi);
        }
      }
    }
  }

  lemma SpawnedTimed(s: State, lo: Time, hi: Time)
    requires |s.runners| < |s.jobs| && lo <= s.now
    requires Fits(s.jobs[|s.runners|].schedule, lo, hi)
    ensures Timed(Spawned(s), lo, s.now, hi)
  {}

  lemma {:induction false} ClockAdvances(s: State, run: seq<Action>)
    requires CanRun(s, run)
    ensures s.now <= AfterRun(s, run).now
    decreases |run|
  {
    if run != [] {
      if !run[0].Go? {
        OthersLeaveRunners(s, run[0]);
      }
      ClockAdvances(Apply(s, run[0]), run[1..]);
    }
  }

  lemma {:induction false} TimedAlways(s: State, run: seq<Action>, lo: Time, hi: Time)
    requires AllTimed(s, lo, hi) && CanRun(s, run) && AfterRun(s, run).now <= hi
    ensures AllTimed(AfterRun(s, run), lo, hi)
    decreases |run|
  {
    if run != [] {
      ClockAdvances(Apply(s, run[0]), run[1..]);
      TimedKept(s, run[0], lo, hi);
      TimedAlways(Apply(s, run[0]), run[1..], lo, hi);
    }
  }
}
