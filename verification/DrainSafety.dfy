/** What every interleaving keeps about the scheduler's lifecycle: the WaitGroup counts the
    runners that have not exited, and a `Shutdown` that returns nil has drained them. */
module DrainSafety {
  import opened Wrappers
  import opened Schedules
  import opened Protocol

  /** The number of runners that have not exited. */
  function Live(runners: seq<Runner>): nat {
    if runners == [] then 0
    else Live(runners[..|runners| - 1]) + if runners[|runners| - 1].phase.Exited? then 0 else 1
  }

  lemma {:induction false} LiveUpdate(runners: seq<Runner>, i: nat, r: Runner)
    requires i < |runners| && !runners[i].phase.Exited?
    ensures Live(runners[i := r]) == Live(runners) - if r.phase.Exited? then 1 else 0
  {
    var last := |runners| - 1;
    if i < last {
      LiveUpdate(runners[..last], i, r);
      assert runners[i := r][..last] == runners[..last][i := r];
    } else {
      assert runners[i := r][..last] == runners[..last];
    }
  }

  lemma {:induction false} NoneLiveIff(runners: seq<Runner>)
    ensures Live(runners) == 0 <==> forall i :: 0 <= i < |runners| ==> runners[i].phase.Exited?
  {
    if runners != [] {
      NoneLiveIff(runners[..|runners| - 1]);
    }
  }

  ghost predicate AllExited(runners: seq<Runner>) {
    forall i :: 0 <= i < |runners| ==> runners[i].phase.Exited?
  }

  /** What is true of a `Shutdown` call that saw the scheduler started. */
  ghost predicate CallInv(s: State, c: Call) {
    && (!c.sawStarted ==> c.phase == ReturnedNil && !c.drained)
    && (c.sawStarted ==>
          && s.started && !s.starting
          && (c.phase != Read ==> s.runCtx.Some?)
          && (c.phase == ReturnedNil ==> c.drained)
          && (c.phase == ReturnedErr ==> c.expired)
          && (c.drained ==> AllExited(s.runners)))
  }

  ghost predicate Lifecycle(s: State) {
    && |s.runners| <= |s.jobs|
    && (!s.started ==> s.runners == [] && !s.starting && s.runCtx.None?)
    && (s.started && !s.starting ==> |s.runners| == |s.jobs|)
    && s.wg == Live(s.runners)
    && (forall i {:trigger s.calls[i]} :: 0 <= i < |s.calls| ==> CallInv(s, s.calls[i]))
  }

  /** Job names are distinct and non-empty, and frozen once Start has begun. */
  ghost predicate Registered(jobs: seq<Job>) {
    && (forall i :: 0 <= i < |jobs| ==> jobs[i].name != "")
    && (forall i, j :: 0 <= i < j < |jobs| ==> jobs[i].name != jobs[j].name)
  }

  lemma LifecycleKept(s: State, a: Action)
    requires Lifecycle(s) && Enabled(s, a)
    ensures Lifecycle(Apply(s, a))
  {
    match a
    case Go(i, step) => StepKeepsLifecycle(s, i, step);
    case Spawn => SpawnKeepsLifecycle(s);
    case Tick(_) => LifecycleStepKept(s, a);
    case Add(_, _, _) => LifecycleStepKept(s, a);
    case StartLock => LifecycleStepKept(s, a);
    case StartUnlock => LifecycleStepKept(s, a);
    case CancelParent(_) => LifecycleStepKept(s, a);
    case Propagate => LifecycleStepKept(s, a);
    case _ => CallStepKept(s, a);
  }

  lemma LifecycleStepKept(s: State, a: Action)
    requires Lifecycle(s) && Enabled(s, a)
    requires a.Tick? || a.Add? || a.StartLock? || a.StartUnlock? || a.CancelParent? || a.Propagate?
    ensures Lifecycle(Apply(s, a))
  {
    hide Live;
    var t := Apply(s, a);
    forall c {:trigger t.calls[c]} | 0 <= c < |t.calls|
      ensures CallInv(t, t.calls[c])
    {
      assert CallInv(s, s.calls[c]);
    }
  }

  lemma CallStepKept(s: State, a: Action)
    requires Lifecycle(s) && Enabled(s, a)
    requires a.ShutdownRead? || a.ShutdownCancel? || a.Drained? || a.CallerDone? || a.ReturnNil? || a.ReturnErr?
    ensures Lifecycle(Apply(s, a))
  {
    NoneLiveIff(s.runners);
    hide Live;
    var t := Apply(s, a);
    assert t.runners == s.runners && t.jobs == s.jobs && t.started == s.started && t.starting == s.starting;
    forall c {:trigger t.calls[c]} | 0 <= c < |t.calls|
      ensures CallInv(t, t.calls[c])
    {
      if c < |s.calls| {
        assert CallInv(s, s.calls[c]);
      }
    }
  }

  lemma SpawnKeepsLifecycle(s: State)
    requires Lifecycle(s) && Enabled(s, Spawn)
    ensures Lifecycle(Apply(s, Spawn))
  {
    var t := Apply(s, Spawn);
    assert t.runners[..|s.runners|] == s.runners;
    forall c {:trigger t.calls[c]} | 0 <= c < |t.calls|
      ensures CallInv(t, t.calls[c])
    {
      assert CallInv(s, s.calls[c]);
    }
  }

  lemma StepKeepsLifecycle(s: State, i: nat, step: Step)
    requires Lifecycle(s) && i < |s.runners| && StepEnabled(s, i, step)
    ensures Lifecycle(TakeStep(s, i, step))
  {
    var s' := TakeStep(s, i, step);
    LiveUpdate(s.runners, i, s'.runners[i]);
    forall c {:trigger s'.calls[c]} | 0 <= c < |s'.calls|
      ensures CallInv(s', s'.calls[c])
    {
      assert CallInv(s, s.calls[c]);
      assert !s.runners[i].phase.Exited?;
    }
  }

  lemma RegisteredKept(s: State, a: Action)
    requires Registered(s.jobs) && Enabled(s, a)
    ensures Registered(Apply(s, a).jobs)
    ensures s.started ==> Apply(s, a).started && Apply(s, a).jobs == s.jobs
  {}

  /** Over every run the lifecycle invariant holds and no job is registered twice. */
  lemma {:induction false} LifecycleAlways(s: State, run: seq<Action>)
    requires Lifecycle(s) && Registered(s.jobs) && CanRun(s, run)
    ensures Lifecycle(AfterRun(s, run)) && Registered(AfterRun(s, run).jobs)
    ensures s.started ==> AfterRun(s, run).started && AfterRun(s, run).jobs == s.jobs
    decreases |run|
  {
    if run != [] {
      LifecycleKept(s, run[0]);
      RegisteredKept(s, run[0]);
      LifecycleAlways(Apply(s, run[0]), run[1..]);
    }
  }

  /** Once every job has its runner and all have exited, nothing changes them again. */
  lemma {:induction false} ExitedForEver(s: State, run: seq<Action>)
    requires Lifecycle(s) && CanRun(s, run)
    requires s.started && !s.starting && AllExited(s.runners)
    ensures AfterRun(s, run).runners == s.runners
    decreases |run|
  {
    if run != [] {
      LifecycleKept(s, run[0]);
      ExitedForEver(Apply(s, run[0]), run[1..]);
    }
  }

  /** Drain safety. Whatever happened before and whatever happens after, if a `Shutdown` of a
      started scheduler has returned nil then every runner has exited: no body is executing,
      and the runners and the histories of their runs never change again. An error return
      says only that the caller's context had ended. */
  lemma ShutdownDrains(now: int, hasHook: bool, before: seq<Action>, c: nat, later: seq<Action>)
    requires CanRun(New(now, hasHook), before)
    requires c < |AfterRun(New(now, hasHook), before).calls|
    requires CanRun(AfterRun(New(now, hasHook), before), later)
    ensures var s := AfterRun(New(now, hasHook), before);
            && (s.calls[c].phase == ReturnedNil && s.calls[c].sawStarted ==>
                  AllExited(s.runners) && |s.runners| == |s.jobs|
                  && AfterRun(s, later).runners == s.runners)
            && (s.calls[c].phase == ReturnedErr ==> s.calls[c].expired)
  {
    var s := AfterRun(New(now, hasHook), before);
    LifecycleAlways(New(now, hasHook), before);
    assert CallInv(s, s.calls[c]);
    if s.calls[c].phase == ReturnedNil && s.calls[c].sawStarted {
      ExitedForEver(s, later);
    }
  }

  // ---- What a Shutdown that returns nil promises ----

  ghost predicate NoneRunning(s: State) {
    forall i :: 0 <= i < |s.runners| ==> !s.runners[i].phase.Running?
  }

  /** Whenever call `c` has returned nil, no job body is executing: in no continuation of `s`. */
  ghost predicate PromisesDrain(s: State, c: nat) {
    forall run :: CanRun(s, run) && c < |AfterRun(s, run).calls| && AfterRun(s, run).calls[c].phase == ReturnedNil
      ==> NoneRunning(AfterRun(s, run))
  }

  function LongName(jobs: seq<Job>): (name: string)
    ensures name != "" && forall i :: 0 <= i < |jobs| ==> |jobs[i].name| < |name|
  {
    if jobs == [] then "x"
    else
      var last := |jobs| - 1;
      var name := LongName(jobs[..last]);
      if |jobs[last].name| < |name| then name else jobs[last].name + "x"
  }

  /** Start launches the runners it has left. */
  lemma {:induction false} SpawnsTheRest(s: State) returns (run: seq<Action>)
    requires s.starting && |s.runners| <= |s.jobs|
    ensures CanRun(s, run)
    ensures var t := AfterRun(s, run);
            && t.calls == s.calls && |t.runners| == |s.jobs|
            && (forall k {:trigger t.runners[k]} :: 0 <= k < |s.jobs| ==>
                  t.runners[k] == if k < |s.runners| then s.runners[k] else Runner(s.jobs[k].schedule, [], Asking, []))
    decreases |s.jobs| - |s.runners|
  {
    run := [];
    if |s.runners| < |s.jobs| {
      var t := Apply(s, Spawn);
      var rest := SpawnsTheRest(t);
      RunFrom(s, Spawn, rest);
      run := [Spawn] + rest;
    }
  }

  /** A runner of a new `Once(1)` job can get to its body. */
  lemma OnceRuns(s: State, i: nat) returns (run: seq<Action>)
    requires i < |s.runners| && s.runners[i] == Runner(OnceAfter(1), [], Asking, [])
    ensures CanRun(s, run)
    ensures AfterRun(s, run).calls == s.calls
    ensures i < |AfterRun(s, run).runners| && AfterRun(s, run).runners[i].phase.Running?
  {
    var due := s.now + 1;
    var asked := Runner(Once(1, true), [s.now], Ready(due), []);
    assert Advance(s.runners[i], Ask, s.now, s.runCtx.Some?) == asked;
    var s1 := WithRunner(s, i, asked);
    PlainStep(s, i, Ask);
    assert Apply(s, Go(i, Ask)) == s1;
    var s2 := WithRunner(s1, i, s1.runners[i].(phase := Armed(due, due, s.runCtx.Some?)));
    PlainStep(s1, i, Arm);
    assert Apply(s1, Go(i, Arm)) == s2;
    var s3 := s2.(now := due);
    assert Apply(s2, Tick(due)) == s3;
    var s4 := WithRunner(s3, i, s3.runners[i].(phase := Running(due, due, s.runCtx.Some?)));
    PlainStep(s3, i, TakeTimer);
    assert Apply(s3, Go(i, TakeTimer)) == s4;
    hide Apply, Advance;
    RunFrom(s3, Go(i, TakeTimer), []);
    run := [Go(i, TakeTimer)] + [];
    RunFrom(s2, Tick(due), run);
    run := [Tick(due)] + run;
    RunFrom(s1, Go(i, Arm), run);
    run := [Go(i, Arm)] + run;
    RunFrom(s, Go(i, Ask), run);
    run := [Go(i, Ask)] + run;
  }

  /** Before Start one more job can be added, and once it has been started its body runs. */
  lemma JobCanStillRun(s: State) returns (run: seq<Action>)
    requires Lifecycle(s) && !s.started
    ensures CanRun(s, run)
    ensures AfterRun(s, run).calls == s.calls && !NoneRunning(AfterRun(s, run))
  {
    var name, i := LongName(s.jobs), |s.jobs|;
    var add := Add(name, Some(OnceAfter(1)), true);
    var s1 := s.(jobs := s.jobs + [Job(name, OnceAfter(1))]);
    assert Apply(s, add) == s1;
    var s2 := s1.(started := true, starting := true);
    assert Apply(s1, StartLock) == s2;
    hide Apply;
    var spawns := SpawnsTheRest(s2);
    var s3 := AfterRun(s2, spawns);
    var last := OnceRuns(s3, i);
    RunsCompose(s2, spawns, last);
    run := spawns + last;
    RunFrom(s1, StartLock, run);
    run := [StartLock] + run;
    RunFrom(s, add, run);
    run := [add] + run;
  }

  /** What a call saw of `started` does not change. */
  lemma {:induction false} CallRemembers(s: State, run: seq<Action>, c: nat)
    requires CanRun(s, run) && c < |s.calls|
    ensures c < |AfterRun(s, run).calls| && AfterRun(s, run).calls[c].sawStarted == s.calls[c].sawStarted
    decreases |run|
  {
    if run != [] {
      assert c < |Apply(s, run[0]).calls| && Apply(s, run[0]).calls[c].sawStarted == s.calls[c].sawStarted;
      CallRemembers(Apply(s, run[0]), run[1..], c);
    }
  }

  /** A `Shutdown` promises to drain exactly when it finds the scheduler started. Wherever a
      run has got to, a call that begins there before Start returns nil and a job may run
      after it; one that begins after Start never returns nil while a body executes. */
  lemma ShutdownPromisesDrainIff(now: int, hasHook: bool, before: seq<Action>)
    requires CanRun(New(now, hasHook), before)
    requires Enabled(AfterRun(New(now, hasHook), before), ShutdownRead)
    ensures var s := AfterRun(New(now, hasHook), before);
            PromisesDrain(Apply(s, ShutdownRead), |s.calls|) <==> s.started
  {
    LifecycleAlways(New(now, hasHook), before);
    var s := AfterRun(New(now, hasHook), before);
    var t, c := Apply(s, ShutdownRead), |s.calls|;
    LifecycleKept(s, ShutdownRead);
    if s.started {
      forall run | CanRun(t, run) && c < |AfterRun(t, run).calls| && AfterRun(t, run).calls[c].phase == ReturnedNil
        ensures NoneRunning(AfterRun(t, run))
      {
        LifecycleAlways(t, run);
        CallRemembers(t, run, c);
        assert CallInv(AfterRun(t, run), AfterRun(t, run).calls[c]);
      }
    } else {
      var run := JobCanStillRun(t);
    }
  }
}
