/** The `Scheduler` type: the fields its methods update in place. Each method, run with no
    other goroutine in between, is proved to be a run of the protocol. */
module SchedulerObject {
  import opened GoTime
  import opened Wrappers
  import opened JobErrors
  import opened Protocol
  import opened DrainSafety
  import opened FatalHook

  // ---- What other goroutines leave alone ----

  predicate NotOfCall(run: seq<Action>, c: nat) {
    forall a :: a in run ==> a != ShutdownCancel(c) && a != ReturnNil(c) && a != ReturnErr(c)
  }

  predicate NotOfRunner(run: seq<Action>, i: nat) {
    forall a :: a in run ==> !(a.Go? && a.runner == i)
  }

  /** The state the others have made by the time a call's select has a branch ready. */
  ghost predicate WakesUp(s: State, others: seq<Action>, c: nat) {
    && CanRun(s, others) && NotOfCall(others, c)
    && c < |AfterRun(s, others).calls|
    && (AfterRun(s, others).calls[c].drained || AfterRun(s, others).calls[c].expired)
  }

  /** A `Shutdown` that has read `started` goes on to cancel, and its wait ends. */
  ghost predicate StopsAndWakes(s: State, unlocked: seq<Action>, waiting: seq<Action>, c: nat) {
    && CanRun(s, unlocked) && NotOfCall(unlocked, c)
    && var t := AfterRun(s, unlocked);
       Enabled(t, ShutdownCancel(c)) && WakesUp(Apply(t, ShutdownCancel(c)), waiting, c)
  }

  /** Runner i wins the once, and the others run before and after its call of the hook. */
  ghost predicate HookRuns(s: State, i: nat, before: seq<Action>, after: seq<Action>) {
    && NotOfRunner(before, i) && NotOfRunner(after, i)
    && Enabled(s, Go(i, EnterOnce))
    && var entered := Apply(s, Go(i, EnterOnce));
       && CanRun(entered, before)
       && var due := AfterRun(entered, before);
          && Enabled(due, Go(i, CallHook))
          && CanRun(Apply(due, Go(i, CallHook)), after)
  }

  lemma ReturnedNilIsDrained(s: State, c: nat)
    requires Lifecycle(s) && c < |s.calls|
    ensures s.calls[c].sawStarted && s.calls[c].phase == ReturnedNil ==>
              AllExited(s.runners) && |s.runners| == |s.jobs|
  {
    assert CallInv(s, s.calls[c]);
  }

  lemma OnceDoneIsCalled(s: State)
    requires HookInv(s) && s.once.Done?
    ensures s.runCtx.Some? && s.hookCalls == CalledWith(s, s.once.err)
  {}

  lemma {:induction false} CallWaits(s: State, others: seq<Action>, c: nat)
    requires CanRun(s, others) && NotOfCall(others, c) && c < |s.calls|
    ensures var t := AfterRun(s, others);
            c < |t.calls| && t.calls[c].phase == s.calls[c].phase && t.calls[c].sawStarted == s.calls[c].sawStarted
    decreases |others|
  {
    if others != [] {
      assert others[0] in others && forall a :: a in others[1..] ==> a in others;
      CallStepsAside(s, others[0], c);
      CallWaits(Apply(s, others[0]), others[1..], c);
    }
  }

  lemma CallStepsAside(s: State, a: Action, c: nat)
    requires Enabled(s, a) && c < |s.calls|
    requires a != ShutdownCancel(c) && a != ReturnNil(c) && a != ReturnErr(c)
    ensures var t := Apply(s, a);
            c < |t.calls| && t.calls[c].phase == s.calls[c].phase && t.calls[c].sawStarted == s.calls[c].sawStarted
  {
    if a.Go? {
      StepKeepsCalls(s, a.runner, a.step);
    }
    hide TakeStep, AddOutcome, Cancel;
  }

  lemma {:induction false} RunnerWaits(s: State, others: seq<Action>, i: nat)
    requires CanRun(s, others) && NotOfRunner(others, i) && i < |s.runners|
    ensures i < |AfterRun(s, others).runners| && AfterRun(s, others).runners[i] == s.runners[i]
    decreases |others|
  {
    if others != [] {
      if others[0].Go? {
        assert others[0] in others;
      } else {
        OthersLeaveRunners(s, others[0]);
      }
      RunnerWaits(Apply(s, others[0]), others[1..], i);
    }
  }

  /** Nothing undoes a start or a cancellation, or changes whether there is a hook. */
  lemma {:induction false} Lasting(s: State, run: seq<Action>)
    requires CanRun(s, run)
    ensures var t := AfterRun(s, run);
            && t.hasHook == s.hasHook && (s.started ==> t.started)
            && (s.runCtx.Some? ==> t.runCtx == s.runCtx)
    decreases |run|
  {
    if run != [] {
      LastingStep(s, run[0]);
      Lasting(Apply(s, run[0]), run[1..]);
    }
  }

  lemma LastingStep(s: State, a: Action)
    requires Enabled(s, a)
    ensures var t := Apply(s, a);
            && t.hasHook == s.hasHook && (s.started ==> t.started)
            && (s.runCtx.Some? ==> t.runCtx == s.runCtx)
  {
    hide Advance, AddOutcome;
  }

  class Scheduler {
    const hasHook: bool
    var now: Time
    var started: bool
    var starting: bool
    var jobs: seq<Job>
    var parent: Option<Cause>
    var runCtx: Option<Cause>
    var wg: int
    var once: OnceState
    var hookCalls: seq<Error>
    var runners: seq<Runner>
    var calls: seq<Call>

    function Value(): State
      reads this
    {
      State(now, jobs, started, starting, hasHook, parent, runCtx, wg, once, hookCalls, runners, calls)
    }

    constructor (now: Time, hasHook: bool)
      ensures Value() == New(now, hasHook)
    {
      this.now, this.hasHook := now, hasHook;
      started, starting, jobs, parent, runCtx, wg := false, false, [], None, None, 0;
      once, hookCalls, runners, calls := Idle, [], [], [];
    }

    method Add(name: string, schedule: Option<LiveSchedule>, hasFn: bool) returns (result: AddResult)
      requires !starting
      modifies this`jobs
      ensures result == AddOutcome(old(Value()), name, schedule, hasFn)
      ensures result == Added <==> !started && name != "" && schedule.Some? && hasFn
                                   && forall i :: 0 <= i < |old(jobs)| ==> old(jobs)[i].name != name
      ensures result == AfterStart <==> started
      ensures result == EmptyName <==> !started && name == ""
      ensures result == Incomplete <==> !started && name != "" && (schedule.None? || !hasFn)
      ensures jobs == old(jobs) + if result == Added then [Job(name, schedule.value)] else []
      ensures Value() == Apply(old(Value()), Action.Add(name, schedule, hasFn))
    {
      if started {
        return AfterStart;
      }
      if name == "" {
        return EmptyName;
      }
      if schedule.None? || !hasFn {
        return Incomplete;
      }
      for i := 0 to |jobs|
        invariant jobs == old(jobs)
        invariant forall j :: 0 <= j < i ==> jobs[j].name != name
      {
        if jobs[i].name == name {
          return DuplicateName;
        }
      }
      jobs := jobs + [Job(name, schedule.value)];
      return Added;
    }

    /** Start launches one runner per job, under the mutex; a second Start changes nothing. */
    method Start() returns (run: seq<Action>)
      requires !starting && (!started ==> runners == [])
      modifies this
      ensures CanRun(old(Value()), run) && Value() == AfterRun(old(Value()), run)
      ensures old(started) ==> Value() == old(Value())
      ensures !old(started) ==>
                && started && !starting && |runners| == |jobs| && wg == old(wg) + |jobs|
                && forall k :: 0 <= k < |jobs| ==> runners[k] == Runner(jobs[k].schedule, [], Asking, [])
    {
      ghost var s := Value();
      run := [StartLock];
      SingleRun(s, StartLock);
      hide TakeStep, AddOutcome, CanRun, AfterRun;
      if started {
        return;
      }
      started, starting := true, true;
      for i := 0 to |jobs|
        invariant started && starting && |runners| == i && wg == old(wg) + i && jobs == old(jobs)
        invariant CanRun(s, run) && Value() == AfterRun(s, run)
        invariant forall k :: 0 <= k < i ==> runners[k] == Runner(jobs[k].schedule, [], Asking, [])
      {
        RunAndThen(s, run, Spawn);
        wg := wg + 1;
        runners := runners + [Runner(jobs[i].schedule, [], Asking, [])];
        run := run + [Spawn];
      }
      RunAndThen(s, run, StartUnlock);
      starting := false;
      run := run + [StartUnlock];
    }

    /** The critical section at the top of Shutdown. */
    method ReadStarted() returns (c: nat)
      requires !starting
      modifies this`calls
      ensures Value() == Apply(old(Value()), ShutdownRead)
      ensures c == |old(calls)|
      ensures calls == old(calls) + [Call(started, if started then Read else ReturnedNil, false, false)]
    {
      c := |calls|;
      calls := calls + [Call(started, if started then Read else ReturnedNil, false, false)];
    }

    /** `cancel(ErrSchedulerClosed)`. */
    method CancelForShutdown(c: nat)
      requires c < |calls| && calls[c].phase == Read
      modifies this`runCtx, this`calls
      ensures Value() == Apply(old(Value()), ShutdownCancel(c))
      ensures runCtx == Cancel(old(runCtx), SchedulerClosed)
      ensures calls == old(calls)[c := old(calls)[c].(phase := Waiting)]
    {
      runCtx := Cancel(runCtx, SchedulerClosed);
      calls := calls[c := calls[c].(phase := Waiting)];
    }

    /** Any other goroutines run, and the environment moves, while this one waits. */
    method Others(run: seq<Action>)
      requires CanRun(Value(), run)
      modifies this
      ensures Value() == AfterRun(old(Value()), run)
    {
      Lasting(Value(), run);
      var s := AfterRun(Value(), run);
      now, jobs, started, starting, parent, runCtx := s.now, s.jobs, s.started, s.starting, s.parent, s.runCtx;
      wg, once, hookCalls, runners, calls := s.wg, s.once, s.hookCalls, s.runners, s.calls;
    }

    /** The select: a branch that is ready, `pickDone` choosing when both are. */
    method Select(c: nat, pickDone: bool) returns (failed: bool, action: Action)
      requires c < |calls| && calls[c].phase == Waiting && (calls[c].drained || calls[c].expired)
      modifies this`calls
      ensures Enabled(old(Value()), action) && Value() == Apply(old(Value()), action)
      ensures failed <==> old(calls)[c].expired && (!old(calls)[c].drained || !pickDone)
      ensures action == if failed then ReturnErr(c) else ReturnNil(c)
      ensures calls == old(calls)[c := old(calls)[c].(phase := if failed then ReturnedErr else ReturnedNil)]
    {
      failed := calls[c].expired && (!calls[c].drained || !pickDone);
      if failed {
        action := ReturnErr(c);
        calls := calls[c := calls[c].(phase := ReturnedErr)];
      } else {
        action := ReturnNil(c);
        calls := calls[c := calls[c].(phase := ReturnedNil)];
      }
    }

    /** The wait. The others, the goroutine that closes `done` and the caller's context among
        them, run until a branch of the select is ready; it then picks one that is. */
    method Await(c: nat, others: seq<Action>, pickDone: bool) returns (failed: bool, run: seq<Action>)
      requires c < |calls| && calls[c].phase == Waiting && WakesUp(Value(), others, c)
      modifies this
      ensures run == others + [if failed then ReturnErr(c) else ReturnNil(c)]
      ensures CanRun(old(Value()), run) && Value() == AfterRun(old(Value()), run)
      ensures c < |calls| && calls[c].phase == (if failed then ReturnedErr else ReturnedNil)
      ensures calls[c].sawStarted == old(calls[c].sawStarted)
      ensures if failed then calls[c].expired && !(calls[c].drained && pickDone) else calls[c].drained
    {
      ghost var s := Value();
      CallWaits(s, others, c);
      hide Apply, CanRun, AfterRun;
      Others(others);
      var action;
      failed, action := Select(c, pickDone);
      RunAndThen(s, others, action);
      run := others + [action];
    }

    /** The whole call, with others running while it waits for the mutex (`locking`), between
        the mutex and the cancellation (`unlocked`), and while it waits for the drain. */
    method Shutdown(locking: seq<Action>, unlocked: seq<Action>, waiting: seq<Action>, pickDone: bool)
      returns (c: nat, failed: bool, run: seq<Action>)
      requires CanRun(Value(), locking) && !AfterRun(Value(), locking).starting
      requires var s := AfterRun(Value(), locking);
               s.started ==> StopsAndWakes(Apply(s, ShutdownRead), unlocked, waiting, |s.calls|)
      modifies this
      ensures CanRun(old(Value()), run) && Value() == AfterRun(old(Value()), run)
      ensures c == |AfterRun(old(Value()), locking).calls| < |calls|
      ensures calls[c].sawStarted == AfterRun(old(Value()), locking).started
      ensures calls[c].phase == if failed then ReturnedErr else ReturnedNil
      ensures run == locking + [ShutdownRead] + if !calls[c].sawStarted then []
                     else unlocked + [ShutdownCancel(c)] + waiting + [if failed then ReturnErr(c) else ReturnNil(c)]
      ensures failed ==> calls[c].sawStarted && calls[c].expired
      ensures calls[c].sawStarted ==> runCtx.Some?
      ensures old(runCtx.Some?) ==> runCtx == old(runCtx)
      ensures old(Lifecycle(Value()) && Registered(jobs)) ==>
                Lifecycle(Value()) && (calls[c].sawStarted && !failed ==> AllExited(runners) && |runners| == |jobs|)
    {
      ghost var s := Value();
      hide Apply, AfterRun, CanRun, Lifecycle, Registered;
      Others(locking);
      RunAndThen(s, locking, ShutdownRead);
      c := ReadStarted();
      failed, run := false, locking + [ShutdownRead];
      if started {
        ghost var read := Value();
        CallWaits(read, unlocked, c);
        Others(unlocked);
        RunsCompose(s, run, unlocked);
        RunAndThen(s, run + unlocked, ShutdownCancel(c));
        CancelForShutdown(c);
        ghost var cancelled := Value();
        var rest;
        failed, rest := Await(c, waiting, pickDone);
        Lasting(cancelled, rest);
        RunsCompose(s, run + unlocked + [ShutdownCancel(c)], rest);
        assert run + unlocked + [ShutdownCancel(c)] + rest == run + (unlocked + [ShutdownCancel(c)] + rest);
        run := run + (unlocked + [ShutdownCancel(c)] + rest);
      }
      Lasting(s, run);
      if Lifecycle(s) && Registered(s.jobs) {
        LifecycleAlways(s, run);
        ReturnedNilIsDrained(Value(), c);
      }
    }

    /** The runner wins the once, or finds it done. */
    method EnterOnce(i: nat)
      requires i < |runners| && runners[i].phase.Escalating? && once.Idle?
      modifies this`once, this`runners
      ensures Value() == Apply(old(Value()), Go(i, Step.EnterOnce))
      ensures once == Busy(i, old(runners[i].phase.err))
      ensures runners == old(runners)[i := old(runners[i]).(phase := InHook(old(runners[i].phase.err)))]
    {
      once := Busy(i, runners[i].phase.err);
      runners := runners[i := runners[i].(phase := InHook(runners[i].phase.err))];
    }

    method CallHook(i: nat)
      requires i < |runners| && runners[i].phase.InHook?
      modifies this`hookCalls, this`runners
      ensures Value() == Apply(old(Value()), Go(i, Step.CallHook))
      ensures hookCalls == old(hookCalls) + if hasHook then [old(runners[i].phase.err)] else []
      ensures runners == old(runners)[i := old(runners[i]).(phase := Hooked(old(runners[i].phase.err)))]
    {
      if hasHook {
        hookCalls := hookCalls + [runners[i].phase.err];
      }
      runners := runners[i := runners[i].(phase := Hooked(runners[i].phase.err))];
    }

    method CancelAll(i: nat)
      requires i < |runners| && runners[i].phase.Hooked?
      modifies this`runCtx, this`once, this`runners
      ensures Value() == Apply(old(Value()), Go(i, Step.CancelAll))
      ensures runCtx == Cancel(old(runCtx), Failure(old(runners[i].phase.err)))
      ensures once == Done(old(runners[i].phase.err))
      ensures runners == old(runners)[i := old(runners[i]).(phase := Asking)]
    {
      runCtx := Cancel(runCtx, Failure(runners[i].phase.err));
      once := Done(runners[i].phase.err);
      runners := runners[i := runners[i].(phase := Asking)];
    }

    method SkipOnce(i: nat)
      requires i < |runners| && runners[i].phase.Escalating? && once.Done?
      modifies this`runners
      ensures Value() == Apply(old(Value()), Go(i, Step.SkipOnce))
      ensures runners == old(runners)[i := old(runners[i]).(phase := Asking)]
    {
      runners := runners[i := runners[i].(phase := Asking)];
    }

    /** The function handed to `fatalOnce.Do`, with others running before and after its call of
        the hook. */
    method CallHookAndCancel(i: nat, before: seq<Action>, after: seq<Action>) returns (run: seq<Action>)
      requires i < |runners| && runners[i].phase.Escalating? && HookRuns(Value(), i, before, after)
      modifies this
      ensures run == [Go(i, Step.EnterOnce)] + before + [Go(i, Step.CallHook)] + after + [Go(i, Step.CancelAll)]
      ensures CanRun(old(Value()), run) && Value() == AfterRun(old(Value()), run)
      ensures i < |runners| && runners[i] == old(runners[i]).(phase := Asking)
      ensures once == Done(old(runners[i].phase.err)) && runCtx.Some?
    {
      ghost var s := Value();
      hide Apply, AfterRun, CanRun;
      SingleRun(s, Go(i, Step.EnterOnce));
      EnterOnce(i);
      run := [Go(i, Step.EnterOnce)];
      RunnerWaits(Value(), before, i);
      RunsCompose(s, run, before);
      Others(before);
      RunAndThen(s, run + before, Go(i, Step.CallHook));
      CallHook(i);
      run := run + before + [Go(i, Step.CallHook)];
      RunnerWaits(Value(), after, i);
      RunsCompose(s, run, after);
      Others(after);
      RunAndThen(s, run + after, Go(i, Step.CancelAll));
      CancelAll(i);
      run := run + after + [Go(i, Step.CancelAll)];
    }

    /** The whole of triggerFatal of runner i, with others running while another runner is in
        the once (`blocked`) and, if this one wins it, around its call of the hook. */
    method TriggerFatal(i: nat, blocked: seq<Action>, before: seq<Action>, after: seq<Action>)
      returns (run: seq<Action>)
      requires i < |runners| && runners[i].phase.Escalating?
      requires CanRun(Value(), blocked) && NotOfRunner(blocked, i) && !AfterRun(Value(), blocked).once.Busy?
      requires AfterRun(Value(), blocked).once.Idle? ==> HookRuns(AfterRun(Value(), blocked), i, before, after)
      modifies this
      ensures CanRun(old(Value()), run) && Value() == AfterRun(old(Value()), run)
      ensures run == blocked + if AfterRun(old(Value()), blocked).once.Done? then [Go(i, Step.SkipOnce)]
                               else [Go(i, Step.EnterOnce)] + before + [Go(i, Step.CallHook)] + after
                                    + [Go(i, Step.CancelAll)]
      ensures i < |runners| && runners[i] == old(runners[i]).(phase := Asking)
      ensures AfterRun(old(Value()), blocked).once.Idle? ==> once == Done(old(runners[i].phase.err)) && runCtx.Some?
      ensures old(runCtx.Some?) ==> runCtx == old(runCtx)
      ensures old(HookInv(Value())) ==>
                HookInv(Value()) && once.Done? && runCtx.Some? && hookCalls == CalledWith(Value(), once.err)
    {
      ghost var s := Value();
      RunnerWaits(s, blocked, i);
      hide Apply, AfterRun, CanRun, HookInv, HookRuns;
      Others(blocked);
      if once.Done? {
        RunAndThen(s, blocked, Go(i, Step.SkipOnce));
        SkipOnce(i);
        run := blocked + [Go(i, Step.SkipOnce)];
      } else {
        run := CallHookAndCancel(i, before, after);
        RunsCompose(s, blocked, run);
        run := blocked + run;
      }
      Lasting(s, run);
      if HookInv(s) {
        HookAlways(s, run);
        OnceDoneIsCalled(Value());
      }
    }
  }
}
