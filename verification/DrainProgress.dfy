/** What happens after the jobs' context is cancelled: how many more runs can start, and why
    the WaitGroup reaches zero. */
module DrainProgress {
  import opened GoTime
  import opened Wrappers
  import opened Schedules
  import opened Firing
  import opened JobErrors
  import opened Protocol
  import opened DrainSafety
  import opened FatalHook

  /** A runner takes a timer that was created after the cancellation. (A `select` that finds
      the context done and its timer unfired takes the context, so the timer had fired by the
      time its `select` was reached.) */
  predicate Late(s: State, a: Action) {
    a.Go? && a.step.TakeTimer? && a.runner < |s.runners| && s.runners[a.runner].phase.Armed?
    && s.runners[a.runner].phase.late
  }

  /** The late timers taken in a run, by runner. */
  function LateTimers(s: State, run: seq<Action>): multiset<nat>
    requires CanRun(s, run)
    decreases |run|
  {
    if run == [] then multiset{}
    else LateTimers(Apply(s, run[0]), run[1..]) + if Late(s, run[0]) then multiset{run[0].runner} else multiset{}
  }

  // ---- Stragglers ----

  /** Whether each start of a runner's body was handed a cancelled context, in order, the run
      in progress included. */
  function Contexts(r: Runner): seq<bool> {
    seq(|r.log|, k requires 0 <= k < |r.log| => r.log[k].cancelled)
    + if r.phase.Running? then [r.phase.cancelled] else []
  }

  /** The starts with a cancelled context are the last n. */
  ghost predicate LastCancelled(r: Runner, n: nat) {
    && n <= |Contexts(r)|
    && forall k :: 0 <= k < |Contexts(r)| ==> (Contexts(r)[k] <==> k >= |Contexts(r)| - n)
  }

  ghost predicate Straggles(r: Runner, cancelled: bool, n: nat) {
    && LastCancelled(r, n)
    && (n > 0 ==> cancelled)
    && (r.phase.Armed? ==> if r.phase.late then cancelled else n == 0)
  }

  /** How many more cancelled starts can come from timers created before the cancellation. */
  function EarlyStarts(r: Runner, cancelled: bool): nat {
    if cancelled && !(r.phase.Armed? && !r.phase.late) then 0 else 1
  }

  lemma AdvanceStraggles(r: Runner, step: Step, now: Time, cancelled: bool, n: nat) returns (m: nat)
    requires Advance.requires(r, step, now, cancelled) && Straggles(r, cancelled, n)
    ensures var t := Advance(r, step, now, cancelled);
            var late := if step.TakeTimer? && r.phase.late then 1 else 0;
            && Straggles(t, cancelled, m)
            && n + late <= m && m + EarlyStarts(t, cancelled) <= n + late + EarlyStarts(r, cancelled)
  {
    hide Next, Escalation;
    var t := Advance(r, step, now, cancelled);
    m := if step.TakeTimer? && cancelled then n + 1 else n;
    if step.TakeTimer? {
      assert Contexts(t) == Contexts(r) + [cancelled];
    } else {
      assert Contexts(t) == Contexts(r);
    }
  }

  lemma StepMoves(s: State, i: nat, step: Step)
    requires i < |s.runners| && StepEnabled(s, i, step)
    ensures var t := TakeStep(s, i, step);
            && t.runners == s.runners[i := Advance(s.runners[i], step, s.now, s.runCtx.Some?)]
            && t.jobs == s.jobs && t.started == s.started && t.starting == s.starting
            && (s.runCtx.Some? ==> t.runCtx.Some?)
  {}

  /** Runner i, which may not have been launched yet. */
  ghost predicate RunnerStraggles(s: State, i: nat, n: nat) {
    if i < |s.runners| then Straggles(s.runners[i], s.runCtx.Some?, n) else n == 0
  }

  function EarlyStartsOf(s: State, i: nat): nat {
    if i < |s.runners| then EarlyStarts(s.runners[i], s.runCtx.Some?) else 1
  }

  lemma StraggleKept(s: State, a: Action, i: nat, n: nat) returns (m: nat)
    requires RunnerStraggles(s, i, n) && Enabled(s, a)
    ensures var t := Apply(s, a);
            var late := if Late(s, a) && a.runner == i then 1 else 0;
            && RunnerStraggles(t, i, m)
            && n + late <= m && m + EarlyStartsOf(t, i) <= n + late + EarlyStartsOf(s, i)
  {
    m := n;
    if !a.Go? {
      OthersLeaveRunners(s, a);
    } else {
      StepMoves(s, a.runner, a.step);
      if a.runner == i {
        m := AdvanceStraggles(s.runners[i], a.step, s.now, s.runCtx.Some?, n);
      }
    }
    hide Apply, Advance;
  }

  lemma {:induction false} StragglersCounted(s: State, run: seq<Action>, i: nat, n: nat) returns (m: nat)
    requires CanRun(s, run) && RunnerStraggles(s, i, n)
    ensures RunnerStraggles(AfterRun(s, run), i, m)
    ensures n + LateTimers(s, run)[i] <= m <= n + LateTimers(s, run)[i] + EarlyStartsOf(s, i)
    ensures m + EarlyStartsOf(AfterRun(s, run), i) <= n + LateTimers(s, run)[i] + EarlyStartsOf(s, i)
    decreases |run|
  {
    m := n;
    if run != [] {
      m := StraggleKept(s, run[0], i, n);
      m := StragglersCounted(Apply(s, run[0]), run[1..], i, m);
    }
  }

  /** Over every run, a runner's starts with a cancelled context are its last n, where n is the
      number of late timers it took or one more: apart from one start, whose timer was created
      before the cancellation, every run started after it was started by a late timer. */
  lemma StragglersAreLateTimers(now: Time, hasHook: bool, run: seq<Action>, i: nat) returns (n: nat)
    requires CanRun(New(now, hasHook), run)
    requires i < |AfterRun(New(now, hasHook), run).runners|
    ensures LastCancelled(AfterRun(New(now, hasHook), run).runners[i], n)
    ensures LateTimers(New(now, hasHook), run)[i] <= n <= LateTimers(New(now, hasHook), run)[i] + 1
  {
    n := StragglersCounted(New(now, hasHook), run, i, 0);
  }

  /** So a runner that took no late timer starts at most one run after the context is
      cancelled: of its finished runs at most the last, and then it is executing none. */
  lemma AtMostOneStraggler(now: Time, hasHook: bool, run: seq<Action>, i: nat)
    requires CanRun(New(now, hasHook), run) && i !in LateTimers(New(now, hasHook), run)
    requires i < |AfterRun(New(now, hasHook), run).runners|
    ensures var r := AfterRun(New(now, hasHook), run).runners[i];
            && (forall k :: 0 <= k < |r.log| - 1 ==> !r.log[k].cancelled)
            && (r.phase.Running? ==> forall k :: 0 <= k < |r.log| ==> !r.log[k].cancelled)
  {
    var n := StragglersAreLateTimers(now, hasHook, run, i);
    var r := AfterRun(New(now, hasHook), run).runners[i];
    forall k | 0 <= k < |r.log| && r.log[k].cancelled
      ensures k == |Contexts(r)| - 1
    {
      assert Contexts(r)[k];
    }
  }

  const QUIET_END: Step := BodyEnds(Returned(None))

  /** What one round makes of a runner when its timer has fired by the time it is at `select`. */
  lemma RunnerRound(r: Runner, now: Time) returns (r1: Runner, r2: Runner, late: Time, r3: Runner, r4: Runner)
    requires r.phase.Asking? && Next(r.schedule, now).fire.Some?
    ensures r1 == Advance(r, Ask, now, true) && r1.phase.Ready?
    ensures r2 == Advance(r1, Arm, now, true) && r2.phase.Armed?
    ensures late >= now && late >= r2.phase.deadline
    ensures r3 == Advance(r2, TakeTimer, late, true) && r3.phase.Running?
    ensures r4 == Advance(r3, QUIET_END, late, true) && r4.phase.Asking?
    ensures r4.schedule == Next(r.schedule, now).schedule
    ensures |r4.log| == |r.log| + 1 && r.log <= r4.log && r4.log[|r.log|].cancelled
  {
    assert Escalation(Returned(None)).None?;
    hide Next, Escalation;
    r1 := Advance(r, Ask, now, true);
    r2 := Advance(r1, Arm, now, true);
    late := if r2.phase.deadline > now then r2.phase.deadline else now;
    r3 := Advance(r2, TakeTimer, late, true);
    r4 := Advance(r3, QUIET_END, late, true);
  }

  /** One round of the runner's loop, with the clock passing the deadline before the select. */
  lemma OneMoreRound(s: State, i: nat) returns (run: seq<Action>)
    requires i < |s.runners| && s.runners[i].phase.Asking? && s.runCtx.Some?
    requires Next(s.runners[i].schedule, s.now).fire.Some?
    ensures CanRun(s, run)
    ensures var t := AfterRun(s, run);
            && t.runCtx.Some? && |t.runners| == |s.runners| && t.runners[i].phase.Asking?
            && t.runners[i].schedule == Next(s.runners[i].schedule, s.now).schedule
            && |t.runners[i].log| == |s.runners[i].log| + 1 && s.runners[i].log <= t.runners[i].log
            && t.runners[i].log[|s.runners[i].log|].cancelled
  {
    hide Next, Advance;
    var r1, r2, late, r3, r4 := RunnerRound(s.runners[i], s.now);
    var s1 := WithRunner(s, i, r1);
    PlainStep(s, i, Ask);
    var s2 := WithRunner(s1, i, r2);
    PlainStep(s1, i, Arm);
    var s3 := s2.(now := late);
    assert Apply(s2, Tick(late)) == s3;
    var s4 := WithRunner(s3, i, r3);
    PlainStep(s3, i, TakeTimer);
    var s5 := WithRunner(s4, i, r4);
    PlainStep(s4, i, QUIET_END);
    hide Apply, WithRunner;
    RunFrom(s4, Go(i, QUIET_END), []);
    run := [Go(i, QUIET_END)] + [];
    hide CanRun, AfterRun;
    RunFrom(s3, Go(i, TakeTimer), run);
    run := [Go(i, TakeTimer)] + run;
    RunFrom(s2, Tick(late), run);
    run := [Tick(late)] + run;
    RunFrom(s1, Go(i, Arm), run);
    run := [Go(i, Arm)] + run;
    RunFrom(s, Go(i, Ask), run);
    run := [Go(i, Ask)] + run;
  }

  lemma {:induction false} MoreStragglers(s: State, i: nat, n: nat) returns (run: seq<Action>)
    requires i < |s.runners| && s.runners[i].phase.Asking? && s.runCtx.Some?
    requires Budget(s.runners[i].schedule).None?
    ensures CanRun(s, run)
    ensures var t := AfterRun(s, run);
            && i < |t.runners| && |t.runners[i].log| == |s.runners[i].log| + n && t.runners[i].phase.Asking?
            && (forall k :: |s.runners[i].log| <= k < |t.runners[i].log| ==> t.runners[i].log[k].cancelled)
            && s.runners[i].log <= t.runners[i].log
    decreases n
  {
    hide Next, Apply, Advance;
    if n == 0 {
      run := [];
    } else {
      NextSpendsBudget(s.runners[i].schedule, s.now);
      var round := OneMoreRound(s, i);
      var t := AfterRun(s, round);
      var rest := MoreStragglers(t, i, n - 1);
      RunsCompose(s, round, rest);
      run := round + rest;
    }
  }

  /** A new scheduler with one job can get to where its runner asks under a cancelled context. */
  lemma AsksWhenCancelled(now: Time, hasHook: bool, schedule: LiveSchedule) returns (run: seq<Action>)
    ensures CanRun(New(now, hasHook), run)
    ensures var t := AfterRun(New(now, hasHook), run);
            t.runners == [Runner(schedule, [], Asking, [])] && t.runCtx.Some?
  {
    var s, add := New(now, hasHook), Add("job", Some(schedule), true);
    var s1 := s.(jobs := [Job("job", schedule)]);
    assert Apply(s, add) == s1;
    var s2 := s1.(started := true, starting := true);
    var s3 := s2.(runners := [Runner(schedule, [], Asking, [])], wg := 1);
    assert Apply(s2, Spawn) == s3;
    var s4 := s3.(parent := Some(Signal));
    var s5 := s4.(runCtx := Some(Signal));
    assert Apply(s1, StartLock) == s2 && Apply(s3, CancelParent(Signal)) == s4 && Apply(s4, Propagate) == s5;
    hide Apply;
    SingleRun(s4, Propagate);
    run := [Propagate];
    RunFrom(s3, CancelParent(Signal), run);
    run := [CancelParent(Signal)] + run;
    RunFrom(s2, Spawn, run);
    run := [Spawn] + run;
    RunFrom(s1, StartLock, run);
    run := [StartLock] + run;
    RunFrom(s, add, run);
    run := [add] + run;
  }

  /** Late timers do occur without bound: any job with an inexhaustible schedule can start any
      number of runs after the cancellation, in a run of the scheduler from its creation. */
  lemma StragglersWithoutBound(now: Time, hasHook: bool, schedule: LiveSchedule, n: nat) returns (run: seq<Action>)
    requires Budget(schedule).None?
    ensures CanRun(New(now, hasHook), run)
    ensures var r := AfterRun(New(now, hasHook), run).runners;
            |r| > 0 && |Contexts(r[0])| == n && LastCancelled(r[0], n)
  {
    hide Apply, CanRun, AfterRun;
    var before := AsksWhenCancelled(now, hasHook, schedule);
    var s := AfterRun(New(now, hasHook), before);
    var rounds := MoreStragglers(s, 0, n);
    RunsCompose(New(now, hasHook), before, rounds);
    run := before + rounds;
  }

  // ---- The drain measure ----

  /** How many steps a runner can still take once its context is cancelled. */
  function Rank(p: Phase): nat {
    match p
    case Exited => 0
    case Armed(_, _, late) => if late then 1 else 8
    case Ready(_) => 2
    case Asking => 3
    case Hooked(_) => 4
    case InHook(_) => 5
    case Escalating(_) => 6
    case Running(_, _, _) => 7
  }

  function TotalRank(runners: seq<Runner>): nat {
    if runners == [] then 0
    else TotalRank(runners[..|runners| - 1]) + Rank(runners[|runners| - 1].phase)
  }

  /** The steps left to all runners, counting those Start has not launched yet. */
  function Work(s: State): int {
    TotalRank(s.runners) + 4 * (|s.jobs| - |s.runners|)
  }

  lemma {:induction false} TotalRankUpdate(runners: seq<Runner>, i: nat, r: Runner)
    requires i < |runners|
    ensures TotalRank(runners[i := r]) == TotalRank(runners) - Rank(runners[i].phase) + Rank(r.phase)
  {
    var last := |runners| - 1;
    if i < last {
      TotalRankUpdate(runners[..last], i, r);
      assert runners[i := r][..last] == runners[..last][i := r];
    } else {
      assert runners[i := r][..last] == runners[..last];
    }
  }

  /** The scheduler's own steps, as against the environment's and the callers'. */
  predicate SchedulerStep(a: Action) { a.Go? || a.Spawn? }

  /** What taking a late timer adds: the rank of a running body. */
  const ROUND: nat := 7

  /** After cancellation every scheduler step uses up some of the work, and only the taking of
      a late timer, which starts another round of the loop, adds any. */
  lemma WorkShrinks(s: State, a: Action)
    requires s.started && s.runCtx.Some? && Enabled(s, a)
    ensures var t := Apply(s, a);
            && t.started && t.runCtx.Some?
            && if SchedulerStep(a) then Work(t) < Work(s) + (if Late(s, a) then ROUND else 0) else Work(t) == Work(s)
  {
    if a.Go? {
      var r := s.runners[a.runner];
      StepMoves(s, a.runner, a.step);
      TotalRankUpdate(s.runners, a.runner, Advance(r, a.step, s.now, true));
      RankFalls(r, a.step, s.now);
    } else {
      OthersLeaveRunners(s, a);
      if a.Spawn? {
        assert Apply(s, a).runners[..|s.runners|] == s.runners;
      }
    }
  }

  lemma RankFalls(r: Runner, step: Step, now: Time)
    requires Advance.requires(r, step, now, true)
    ensures Rank(Advance(r, step, now, true).phase)
          < Rank(r.phase) + if step.TakeTimer? && r.phase.late then ROUND else 0
  {
    hide Next, Escalation;
  }

  function SchedulerSteps(run: seq<Action>): nat {
    if run == [] then 0 else SchedulerSteps(run[1..]) + if SchedulerStep(run[0]) then 1 else 0
  }

  /** After cancellation a run has no more scheduler steps than there was work, and at most one
      round of the loop, seven steps, for each late timer. */
  lemma {:induction false} StepsAreBounded(s: State, run: seq<Action>)
    requires Lifecycle(s) && s.started && s.runCtx.Some? && CanRun(s, run)
    ensures SchedulerSteps(run) + Work(AfterRun(s, run)) <= Work(s) + ROUND * |LateTimers(s, run)|
    ensures Work(AfterRun(s, run)) >= 0
    decreases |run|
  {
    if run != [] {
      WorkShrinks(s, run[0]);
      LifecycleKept(s, run[0]);
      StepsAreBounded(Apply(s, run[0]), run[1..]);
    }
  }

  /** While any runner has not exited the scheduler has a step to take other than a late timer:
      the drain never blocks on anything but a job body or the hook, whose returns are such
      steps. */
  lemma SomeStepIsEnabled(s: State) returns (a: Action)
    requires Lifecycle(s) && HookInv(s) && s.started && s.runCtx.Some?
    requires s.wg != 0 || |s.runners| < |s.jobs|
    ensures SchedulerStep(a) && Enabled(s, a) && !Late(s, a)
  {
    if |s.runners| < |s.jobs| {
      a := Spawn;
      return;
    }
    NoneLiveIff(s.runners);
    var i: nat :| i < |s.runners| && !s.runners[i].phase.Exited?;
    match s.runners[i].phase
    case Asking => a := Go(i, Ask);
    case Ready(_) => a := Go(i, Arm);
    case Armed(_, _, _) => a := Go(i, TakeCancel);
    case Running(_, _, _) => a := Go(i, BodyEnds(Returned(None)));
    case InHook(_) => a := Go(i, CallHook);
    case Hooked(_) => a := Go(i, CancelAll);
    case Escalating(_) =>
      match s.once
      case Idle => a := Go(i, EnterOnce);
      case Done(_) => a := Go(i, SkipOnce);
      case Busy(owner, _) =>
        a := Go(owner, if s.runners[owner].phase.InHook? then CallHook else CancelAll);
  }

  lemma {:induction false} StaysCancelled(s: State, run: seq<Action>)
    requires s.runCtx.Some? && CanRun(s, run)
    ensures AfterRun(s, run).runCtx.Some?
    decreases |run|
  {
    if run != [] {
      if run[0].Go? {
        StepMoves(s, run[0].runner, run[0].step);
      } else {
        OthersLeaveRunners(s, run[0]);
      }
      StaysCancelled(Apply(s, run[0]), run[1..]);
    }
  }

  /** Draining terminates, and with every runner exited: a run from a cancelled state has as
      many steps as it has work and late timers for, and one that cannot be continued by a
      scheduler step has the WaitGroup at zero. */
  lemma DrainCompletes(now: Time, hasHook: bool, before: seq<Action>, run: seq<Action>)
    requires CanRun(New(now, hasHook), before)
    requires var s := AfterRun(New(now, hasHook), before);
             s.started && s.runCtx.Some? && CanRun(s, run)
    ensures var s := AfterRun(New(now, hasHook), before);
            var t := AfterRun(s, run);
            && SchedulerSteps(run) <= Work(s) + ROUND * |LateTimers(s, run)|
            && ((forall a :: SchedulerStep(a) && !Late(t, a) ==> !Enabled(t, a)) ==>
                  t.wg == 0 && AllExited(t.runners) && |t.runners| == |t.jobs|)
  {
    var s := AfterRun(New(now, hasHook), before);
    var t := AfterRun(s, run);
    LifecycleAlways(New(now, hasHook), before);
    HookAlways(New(now, hasHook), before);
    StepsAreBounded(s, run);
    LifecycleAlways(s, run);
    HookAlways(s, run);
    StaysCancelled(s, run);
    NoneLiveIff(t.runners);
    if t.wg != 0 || |t.runners| < |t.jobs| {
      var a := SomeStepIsEnabled(t);
    }
  }
}
