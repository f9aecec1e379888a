/** The process around the scheduler, api/main.go and api/server.go: OS signals and fatal jobs
    converge on one context, and main then stops the jobs, drains HTTP and exits. */
module App {
  import opened Wrappers
  import opened JobErrors
  import opened DrainSafety
  import opened FatalHook
  import P = Protocol
  import O = SchedulerObject

  const SERVER_CLOSED_UNEXPECTEDLY: nat := 2
  const SERVER_SHUTDOWN_ERROR: nat := 3
  const FATAL_TASK_ERROR: nat := 5

  /** Where main is. `fatal` is what `errors.As(context.Cause(appCtx), &fatal)` said. */
  datatype Main =
    | Starting
    | Waiting                              // <-appCtx.Done()
    | Woken(fatal: bool)                   // signal handling restored, deadline running
    | Stopping(fatal: bool, call: nat)     // in sched.Shutdown(shutdownCtx)
    | Draining(fatal: bool)                // in shutdownServer
    | Finishing(fatal: bool)

  /** How the process ends: main returns (code 0) or calls os.Exit, some other goroutine calls
      os.Exit, or a signal kills it once main has given up handling them. */
  datatype Exit = Code(n: nat) | Killed

  datatype State = State(
    sched: P.State,              // sched.parent is appCtx
    main: Main,
    listening: bool,
    deadlinePassed: bool,        // shutdownCtx is done
    exit: Option<Exit>,
    cancels: seq<P.Cause>)       // history: the attempts to cancel appCtx, in order

  datatype Action =
    | Sched(a: P.Action)
    | SignalArrives
    | Launch                     // Start has returned; go startServer
    | ListenFails
    | Wake
    | BeginStop
    | DeadlinePasses
    | StopReturns
    | Drained(ok: bool)
    | Return

  predicate IsFatal(cause: P.Cause) {
    cause.Failure? && AsFatal(cause.err).Some?
  }

  /** `cancelApp(err)`, and what a cancelled signalCtx does to its child. */
  function CancelApp(s: State, cause: P.Cause): State {
    s.(sched := P.Apply(s.sched, P.CancelParent(cause)), cancels := s.cancels + [cause])
  }

  predicate CallsHook(s: P.State, a: P.Action) {
    a.Go? && a.step.CallHook? && s.hasHook
  }

  predicate Enabled(s: State, a: Action) {
    && s.exit.None?
    && match a
       case Sched(x) =>
         && P.Enabled(s.sched, x) && !x.CancelParent? && !x.ShutdownRead?
         && (x.CallerDone? ==> s.deadlinePassed)
       case SignalArrives => true
       case Launch => s.main.Starting? && s.sched.started && !s.sched.starting
       case ListenFails => s.listening
       case Wake => s.main.Waiting? && s.sched.parent.Some?
       case BeginStop => s.main.Woken? && !s.sched.starting
       case DeadlinePasses => !s.main.Starting? && !s.main.Waiting?
       case StopReturns =>
         s.main.Stopping? && s.main.call < |s.sched.calls|
         && s.sched.calls[s.main.call].phase in {P.ReturnedNil, P.ReturnedErr}
       case Drained(_) => s.main.Draining?
       case Return => s.main.Finishing?
  }

  function Apply(s: State, a: Action): State
    requires Enabled(s, a)
  {
    match a
    case Sched(x) =>
      var t := s.(sched := P.Apply(s.sched, x));
      if CallsHook(s.sched, x) then CancelApp(t, P.Failure(s.sched.runners[x.runner].phase.err)) else t
    case SignalArrives =>
      if s.main.Starting? || s.main.Waiting? then CancelApp(s, P.Signal) else s.(exit := Some(Killed))
    case Launch => s.(main := Waiting, listening := true)
    case ListenFails => s.(exit := Some(Code(SERVER_CLOSED_UNEXPECTEDLY)))
    case Wake => s.(main := Woken(IsFatal(s.sched.parent.value)))
    case BeginStop =>
      s.(sched := P.Apply(s.sched, P.ShutdownRead), main := Stopping(s.main.fatal, |s.sched.calls|))
    case DeadlinePasses => s.(deadlinePassed := true)
    case StopReturns => s.(main := Draining(s.main.fatal), listening := false)
    case Drained(ok) =>
      if ok then s.(main := Finishing(s.main.fatal)) else s.(exit := Some(Code(SERVER_SHUTDOWN_ERROR)))
    case Return => s.(exit := Some(Code(if s.main.fatal then FATAL_TASK_ERROR else 0)))
  }

  function Boot(now: int): State {
    State(P.New(now, true), Starting, false, false, None, [])
  }

  predicate CanRun(s: State, run: seq<Action>)
    decreases |run|
  {
    run == [] || (Enabled(s, run[0]) && CanRun(Apply(s, run[0]), run[1..]))
  }

  function AfterRun(s: State, run: seq<Action>): State
    requires CanRun(s, run)
    decreases |run|
  {
    if run == [] then s else AfterRun(Apply(s, run[0]), run[1..])
  }

  /** A run split at its last action. */
  lemma {:induction false} LastAction(s: State, run: seq<Action>)
    requires CanRun(s, run) && run != []
    ensures var before, a := run[..|run| - 1], run[|run| - 1];
            && CanRun(s, before) && Enabled(AfterRun(s, before), a)
            && AfterRun(s, run) == Apply(AfterRun(s, before), a)
    decreases |run|
  {
    if |run| > 1 {
      LastAction(Apply(s, run[0]), run[1..]);
      assert run[1..][..|run| - 2] == run[..|run| - 1][1..];
    } else {
      assert run == [run[0]] && run[..0] == [];
    }
  }

  /** A run built backwards from its last action. */
  lemma RunFrom(s: State, a: Action, rest: seq<Action>)
    requires Enabled(s, a) && CanRun(Apply(s, a), rest)
    ensures CanRun(s, [a] + rest) && AfterRun(s, [a] + rest) == AfterRun(Apply(s, a), rest)
  {
    assert ([a] + rest)[1..] == rest;
  }

  lemma {:induction false} RunsCompose(s: State, run: seq<Action>, more: seq<Action>)
    requires CanRun(s, run) && CanRun(AfterRun(s, run), more)
    ensures CanRun(s, run + more) && AfterRun(s, run + more) == AfterRun(AfterRun(s, run), more)
    decreases |run|
  {
    hide Apply, Enabled;
    if run == [] {
      assert run + more == more;
    } else {
      assert (run + more)[1..] == run[1..] + more;
      RunsCompose(Apply(s, run[0]), run[1..], more);
    }
  }

  // ---- Invariants ----

  /** The scheduler inside is a scheduler of the protocol. */
  ghost predicate Inside(s: State) {
    Lifecycle(s.sched) && HookInv(s.sched) && s.sched.hasHook
  }

  /** The first attempt to cancel appCtx gives its cause, and fatal causes come from the hook. */
  ghost predicate FirstWins(s: State) {
    && s.sched.parent == (if s.cancels == [] then None else Some(s.cancels[0]))
    && (forall k {:trigger s.cancels[k]} :: 0 <= k < |s.cancels| ==>
          s.cancels[k].Signal? || (s.cancels[k].Failure? && s.cancels[k].err in s.sched.hookCalls))
  }

  ghost predicate InOrder(s: State) {
    && (!s.main.Starting? ==> s.sched.started && !s.sched.starting)
    && (s.main.Starting? || s.main.Waiting? || (s.sched.parent.Some? && s.main.fatal == IsFatal(s.sched.parent.value)))
    && (forall c {:trigger s.sched.calls[c]} :: 0 <= c < |s.sched.calls| ==>
          s.sched.calls[c].expired ==> s.deadlinePassed)
    && (s.main.Stopping? ==> s.main.call < |s.sched.calls| && s.sched.calls[s.main.call].sawStarted)
    && (s.main.Draining? || s.main.Finishing? ==> AllExited(s.sched.runners) || s.deadlinePassed)
    && (s.exit.Some? && s.exit.value.Code? ==>
          || (s.exit.value.n == SERVER_CLOSED_UNEXPECTEDLY && s.listening)
          || (s.exit.value.n == SERVER_SHUTDOWN_ERROR && s.main.Draining?)
          || (s.main.Finishing? && s.exit.value.n == if s.main.fatal then FATAL_TASK_ERROR else 0))
  }

  lemma InsideKept(s: State, a: Action)
    requires Inside(s) && Enabled(s, a)
    ensures Inside(Apply(s, a))
  {
    match a
    case Sched(x) =>
      LifecycleKept(s.sched, x);
      HookKept(s.sched, x);
      var t := P.Apply(s.sched, x);
      if CallsHook(s.sched, x) {
        var cancel := P.CancelParent(P.Failure(s.sched.runners[x.runner].phase.err));
        LifecycleKept(t, cancel);
        HookKept(t, cancel);
      }
    case SignalArrives =>
      LifecycleKept(s.sched, P.CancelParent(P.Signal));
      HookKept(s.sched, P.CancelParent(P.Signal));
    case BeginStop =>
      LifecycleKept(s.sched, P.ShutdownRead);
      HookKept(s.sched, P.ShutdownRead);
    case _ =>
  }

  /** What a step of the scheduler does to the parts of it that main looks at. */
  lemma SchedulerSteps(s: P.State, x: P.Action)
    requires P.Enabled(s, x)
    ensures var t := P.Apply(s, x);
            && t.parent == (if x.CancelParent? then P.Cancel(s.parent, x.cause) else s.parent)
            && t.hookCalls == s.hookCalls + (if CallsHook(s, x) then [s.runners[x.runner].phase.err] else [])
            && (s.started && !s.starting ==> t.started && !t.starting)
  {}

  lemma CallsChange(s: P.State, x: P.Action)
    requires P.Enabled(s, x)
    ensures var t := P.Apply(s, x);
            && |s.calls| <= |t.calls|
            && (forall c {:trigger t.calls[c]} :: 0 <= c < |t.calls| ==>
                  if c < |s.calls| then
                    t.calls[c].sawStarted == s.calls[c].sawStarted
                    && (t.calls[c].expired ==> s.calls[c].expired || x.CallerDone?)
                  else !t.calls[c].expired && t.calls[c].sawStarted == s.started)
  {
    hide P.Advance, P.AddOutcome, P.Cancel;
  }

  /** A step of the scheduler, as the process sees it. */
  lemma ProcessSteps(s: State, x: P.Action)
    requires Enabled(s, Sched(x))
    ensures var t := Apply(s, Sched(x));
            var hooked := CallsHook(s.sched, x);
            && t.main == s.main && t.exit == s.exit && t.deadlinePassed == s.deadlinePassed
            && t.listening == s.listening
            && t.cancels == s.cancels + (if hooked then [P.Failure(s.sched.runners[x.runner].phase.err)] else [])
            && t.sched.parent == (if !hooked then s.sched.parent
                                  else P.Cancel(s.sched.parent, P.Failure(s.sched.runners[x.runner].phase.err)))
            && t.sched.hookCalls == s.sched.hookCalls + (if hooked then [s.sched.runners[x.runner].phase.err] else [])
            && t.sched.calls == P.Apply(s.sched, x).calls && t.sched.runners == P.Apply(s.sched, x).runners
            && t.sched.started == P.Apply(s.sched, x).started && t.sched.starting == P.Apply(s.sched, x).starting
  {
    SchedulerSteps(s.sched, x);
  }

  lemma FirstWinsKept(s: State, a: Action)
    requires FirstWins(s) && Enabled(s, a)
    ensures FirstWins(Apply(s, a))
  {
    hide P.Apply;
    var t := Apply(s, a);
    match a {
      case Sched(x) => ProcessSteps(s, x);
      case SignalArrives => SchedulerSteps(s.sched, P.CancelParent(P.Signal));
      case BeginStop => SchedulerSteps(s.sched, P.ShutdownRead);
      case _ =>
    }
    assert s.sched.hookCalls <= t.sched.hookCalls;
    hide Apply;
    forall k {:trigger t.cancels[k]} | 0 <= k < |t.cancels|
      ensures t.cancels[k].Signal? || (t.cancels[k].Failure? && t.cancels[k].err in t.sched.hookCalls)
    {
      if k < |s.cancels| {
        assert t.cancels[k] == s.cancels[k];
      }
    }
  }

  lemma InOrderKept(s: State, a: Action)
    requires Inside(s) && InOrder(s) && Enabled(s, a)
    ensures InOrder(Apply(s, a))
  {
    match a
    case Sched(x) => SchedulerKeepsOrder(s, x);
    case StopReturns => assert CallInv(s.sched, s.sched.calls[s.main.call]);
    case BeginStop => CallsChange(s.sched, P.ShutdownRead); SchedulerSteps(s.sched, P.ShutdownRead);
    case _ =>
  }

  lemma SchedulerKeepsOrder(s: State, x: P.Action)
    requires Inside(s) && InOrder(s) && Enabled(s, Sched(x))
    ensures InOrder(Apply(s, Sched(x)))
  {
    ProcessSteps(s, x);
    SchedulerSteps(s.sched, x);
    CallsChange(s.sched, x);
    if (s.main.Draining? || s.main.Finishing?) && !s.deadlinePassed {
      assert P.AfterRun(P.Apply(s.sched, x), []) == P.Apply(s.sched, x);
      P.RunFrom(s.sched, x, []);
      ExitedForEver(s.sched, [x] + []);
    }
    hide P.Apply, Apply, HookInv;
  }

  lemma {:induction false} InvariantsHold(s: State, run: seq<Action>)
    requires Inside(s) && FirstWins(s) && InOrder(s) && CanRun(s, run)
    ensures Inside(AfterRun(s, run)) && FirstWins(AfterRun(s, run)) && InOrder(AfterRun(s, run))
    decreases |run|
  {
    if run != [] {
      InsideKept(s, run[0]);
      FirstWinsKept(s, run[0]);
      InOrderKept(s, run[0]);
      InvariantsHold(Apply(s, run[0]), run[1..]);
    }
  }

  lemma HookCallsAreFatal(s: P.State, e: Error)
    requires HookInv(s) && e in s.hookCalls
    ensures AsFatal(e).Some?
  {}

  lemma WokenByFirst(s: State)
    requires Inside(s) && FirstWins(s) && s.sched.parent.Some?
    ensures IsFatal(s.sched.parent.value) <==> s.sched.parent.value.Failure?
  {
    if s.sched.parent.value.Failure? {
      assert s.cancels[0] == s.sched.parent.value;
      HookCallsAreFatal(s.sched, s.sched.parent.value.err);
    }
  }

  /** First cancellation wins. In every interleaving of signals, jobs, the HTTP listener and
      shutdown: the cause of appCtx is the first attempt to cancel it; and when main itself
      ends the process, the listener not having failed nor the drain, its exit code is the
      fatal one exactly if that first attempt was a fatal job's, and otherwise 0. */
  lemma FirstCancellationDecides(now: int, run: seq<Action>)
    requires CanRun(Boot(now), run)
    ensures var s := AfterRun(Boot(now), run);
            && s.sched.parent == (if s.cancels == [] then None else Some(s.cancels[0]))
            && (s.exit.Some? && s.exit.value.Code? ==>
                  || (s.exit.value == Code(SERVER_CLOSED_UNEXPECTEDLY) && s.listening)
                  || (s.exit.value == Code(SERVER_SHUTDOWN_ERROR) && s.main.Draining?)
                  || (s.cancels != [] && s.exit.value
                        == Code(if s.cancels[0].Failure? then FATAL_TASK_ERROR else 0)))
            && (s.cancels != [] && s.cancels[0].Failure? ==> HasFatal(s.cancels[0].err))
  {
    InvariantsHold(Boot(now), run);
    var s := AfterRun(Boot(now), run);
    if s.cancels != [] && s.cancels[0].Failure? {
      HookCallsAreFatal(s.sched, s.cancels[0].err);
      AsFatalIff(s.cancels[0].err);
    }
  }

  /** A cause once set is never replaced, by a signal, a job or a shutdown. */
  lemma {:induction false} CauseIsWrittenOnce(s: State, run: seq<Action>)
    requires CanRun(s, run) && s.sched.parent.Some?
    ensures AfterRun(s, run).sched.parent == s.sched.parent
    ensures s.cancels <= AfterRun(s, run).cancels
    decreases |run|
  {
    if run != [] {
      if run[0].Sched? {
        ProcessSteps(s, run[0].a);
      }
      CauseIsWrittenOnce(Apply(s, run[0]), run[1..]);
    }
  }

  lemma {:induction false} JobsStayStopped(s: State, run: seq<Action>)
    requires Inside(s) && CanRun(s, run)
    requires s.sched.started && !s.sched.starting && AllExited(s.sched.runners)
    ensures AfterRun(s, run).sched.runners == s.sched.runners
    decreases |run|
  {
    if run != [] {
      InsideKept(s, run[0]);
      if run[0].Sched? {
        ProcessSteps(s, run[0].a);
        SchedulerSteps(s.sched, run[0].a);
        P.RunFrom(s.sched, run[0].a, []);
        ExitedForEver(s.sched, [run[0].a] + []);
      }
      JobsStayStopped(Apply(s, run[0]), run[1..]);
    }
  }

  /** Jobs first, then HTTP: once main has begun to drain the server, either every job runner
      has exited and none moves in any continuation, or the deadline both share has passed. */
  lemma JobsStopBeforeHttp(now: int, run: seq<Action>, later: seq<Action>)
    requires CanRun(Boot(now), run) && CanRun(AfterRun(Boot(now), run), later)
    ensures var s := AfterRun(Boot(now), run);
            (s.main.Draining? || s.main.Finishing?) && !s.deadlinePassed ==>
              AllExited(s.sched.runners) && AfterRun(s, later).sched.runners == s.sched.runners
  {
    InvariantsHold(Boot(now), run);
    var s := AfterRun(Boot(now), run);
    if (s.main.Draining? || s.main.Finishing?) && !s.deadlinePassed {
      JobsStayStopped(s, later);
    }
  }

  // ---- Shutdown always ends ----

  /** The steps left to a `Shutdown` call and to main after it. */
  function CallLeft(c: P.Call): nat {
    match c.phase
    case Read => if c.expired then 5 else 6
    case Waiting => if c.expired then 4 else 5
    case ReturnedNil => 3
    case ReturnedErr => 3
  }

  /** The steps main still has to take to end the process once its deadline has passed. */
  function StepsLeft(s: State): nat
    requires s.main.Stopping? ==> s.main.call < |s.sched.calls|
  {
    if s.exit.Some? then 0
    else
      match s.main
      case Starting => 9
      case Waiting => 8
      case Woken(_) => 7
      case Stopping(_, c) => CallLeft(s.sched.calls[c])
      case Draining(_) => 2
      case Finishing(_) => 1
  }

  /** The steps of a `Shutdown` call: its own, and the end of its caller's context. */
  predicate CallStep(s: P.State, x: P.Action, c: nat)
    requires c < |s.calls|
  {
    || x == P.ShutdownCancel(c) || x == P.ReturnNil(c) || x == P.ReturnErr(c)
    || (x == P.CallerDone(c) && !s.calls[c].expired && s.calls[c].phase in {P.Read, P.Waiting})
  }

  /** Main's own steps, and those of the `Shutdown` call it is in. */
  predicate MainStep(s: State, a: Action) {
    match a
    case Sched(x) => s.main.Stopping? && s.main.call < |s.sched.calls| && CallStep(s.sched, x, s.main.call)
    case SignalArrives => false
    case ListenFails => false
    case DeadlinePasses => false
    case _ => true
  }

  lemma CallSteps(s: P.State, x: P.Action, c: nat)
    requires P.Enabled(s, x) && c < |s.calls|
    ensures var t := P.Apply(s, x);
            && c < |t.calls|
            && CallLeft(t.calls[c]) <= CallLeft(s.calls[c])
            && (CallStep(s, x, c) ==> CallLeft(t.calls[c]) < CallLeft(s.calls[c]))
  {
    if x.Go? {
      P.StepKeepsCalls(s, x.runner, x.step);
    }
    hide P.TakeStep, P.AddOutcome, P.Cancel;
  }

  /** Nothing gives main more to do, and each of its own steps leaves less. */
  lemma MainProgresses(s: State, a: Action)
    requires InOrder(s) && Enabled(s, a) && InOrder(Apply(s, a))
    ensures StepsLeft(Apply(s, a)) <= StepsLeft(s)
    ensures MainStep(s, a) ==> StepsLeft(Apply(s, a)) < StepsLeft(s)
  {
    if a.Sched? {
      ProcessSteps(s, a.a);
      if s.main.Stopping? {
        CallSteps(s.sched, a.a, s.main.call);
      }
    }
    hide P.Apply;
  }

  /** After the deadline main always has a step to take. `drains` says whether the server will
      drain; the choice changes nothing else. */
  lemma NextMainStep(s: State, drains: bool) returns (a: Action)
    requires Inside(s) && InOrder(s) && s.exit.None? && s.deadlinePassed
    requires !s.main.Starting? && !s.main.Waiting?
    ensures MainStep(s, a) && Enabled(s, a) && (a.Drained? ==> a.ok == drains)
    ensures !a.SignalArrives? && !a.ListenFails? && (a.Sched? ==> !a.a.Go?)
  {
    match s.main
    case Woken(_) => a := BeginStop;
    case Draining(_) => a := Drained(drains);
    case Finishing(_) => a := Return;
    case Stopping(_, c) =>
      match s.sched.calls[c].phase
      case Read => a := Sched(P.ShutdownCancel(c));
      case Waiting => a := Sched(if s.sched.calls[c].expired then P.ReturnErr(c) else P.CallerDone(c));
      case _ => a := StopReturns;
  }

  function MainSteps(s: State, run: seq<Action>): nat
    requires CanRun(s, run)
    decreases |run|
  {
    if run == [] then 0 else MainSteps(Apply(s, run[0]), run[1..]) + if MainStep(s, run[0]) then 1 else 0
  }

  /** However the rest of the process interleaves, main takes no more steps than it has left. */
  lemma {:induction false} MainStepsAreBounded(s: State, run: seq<Action>)
    requires Inside(s) && FirstWins(s) && InOrder(s) && CanRun(s, run)
    ensures InOrder(AfterRun(s, run)) && MainSteps(s, run) + StepsLeft(AfterRun(s, run)) <= StepsLeft(s)
    decreases |run|
  {
    if run != [] {
      InsideKept(s, run[0]);
      FirstWinsKept(s, run[0]);
      InOrderKept(s, run[0]);
      MainProgresses(s, run[0]);
      MainStepsAreBounded(Apply(s, run[0]), run[1..]);
    }
  }

  /** Past the deadline and past the wait for appCtx, for good. */
  lemma {:induction false} StaysWoken(s: State, run: seq<Action>)
    requires CanRun(s, run) && s.deadlinePassed && !s.main.Starting? && !s.main.Waiting?
    ensures var t := AfterRun(s, run); t.deadlinePassed && !t.main.Starting? && !t.main.Waiting?
    decreases |run|
  {
    if run != [] {
      if run[0].Sched? {
        ProcessSteps(s, run[0].a);
      }
      StaysWoken(Apply(s, run[0]), run[1..]);
    }
  }

  /** Shutdown cannot hang: once main is woken and the deadline has passed, main takes at most
      seven more steps in any interleaving with job bodies, requests and signals, and where it
      has none to take the process has ended. So no endless run keeps main moving, and none
      that stops leaves the process behind. */
  lemma ShutdownEnds(now: int, before: seq<Action>, later: seq<Action>)
    requires CanRun(Boot(now), before)
    requires var s := AfterRun(Boot(now), before);
             CanRun(s, later) && s.deadlinePassed && !s.main.Starting? && !s.main.Waiting?
    ensures var s := AfterRun(Boot(now), before);
            var t := AfterRun(s, later);
            && MainSteps(s, later) <= 7
            && ((forall a :: MainStep(t, a) ==> !Enabled(t, a)) ==> t.exit.Some?)
  {
    InvariantsHold(Boot(now), before);
    var s := AfterRun(Boot(now), before);
    var t := AfterRun(s, later);
    InvariantsHold(s, later);
    MainStepsAreBounded(s, later);
    StaysWoken(s, later);
    if t.exit.None? {
      var a := NextMainStep(t, true);
    }
  }

  /** The code main ends with from here, if nothing else ends the process. */
  function EndCode(s: State, drains: bool): nat
    requires !s.main.Starting? && !s.main.Waiting?
  {
    if !drains && !s.main.Finishing? then SERVER_SHUTDOWN_ERROR
    else if s.main.fatal then FATAL_TASK_ERROR else 0
  }

  lemma MainStepKeepsCode(s: State, a: Action, drains: bool)
    requires InOrder(s) && Enabled(s, a) && MainStep(s, a) && !s.main.Starting? && !s.main.Waiting?
    requires !a.SignalArrives? && !a.ListenFails? && (a.Drained? ==> a.ok == drains) && (a.Sched? ==> !a.a.Go?)
    ensures var t := Apply(s, a);
            && (s.deadlinePassed ==> t.deadlinePassed) && !t.main.Starting? && !t.main.Waiting?
            && if t.exit.Some? then t.exit == Some(Code(EndCode(s, drains)))
               else EndCode(t, drains) == EndCode(s, drains)
  {
    hide P.Apply;
  }

  /** Main needs nobody else: from there at most seven steps, all of them its own, end the
      process, whatever job bodies or requests are still running, and with the code that what
      woke it and the draining of the server call for. */
  lemma {:induction false} MainEndsAlone(s: State, drains: bool) returns (run: seq<Action>)
    requires Inside(s) && InOrder(s) && s.deadlinePassed
    requires !s.main.Starting? && !s.main.Waiting?
    ensures CanRun(s, run) && |run| <= StepsLeft(s) <= 7
    ensures MainSteps(s, run) == |run|
    ensures AfterRun(s, run).exit == if s.exit.Some? then s.exit else Some(Code(EndCode(s, drains)))
    decreases StepsLeft(s)
  {
    run := [];
    if s.exit.None? {
      var a := NextMainStep(s, drains);
      var t := Apply(s, a);
      InsideKept(s, a);
      InOrderKept(s, a);
      MainProgresses(s, a);
      MainStepKeepsCode(s, a, drains);
      hide Apply, Enabled, EndCode;
      var rest := MainEndsAlone(t, drains);
      run := [a] + rest;
      assert run[1..] == rest;
    }
  }

  /** Start can always be finished, and main then waits for appCtx. */
  lemma {:induction false} GetsToWaiting(s: State) returns (run: seq<Action>)
    requires Inside(s) && FirstWins(s) && InOrder(s) && s.exit.None? && (s.main.Starting? || s.main.Waiting?)
    ensures CanRun(s, run)
    ensures var t := AfterRun(s, run);
            && Inside(t) && FirstWins(t) && InOrder(t)
            && t.main.Waiting? && t.exit.None? && t.sched.parent == s.sched.parent
    decreases if s.main.Waiting? then 0 else 1, !s.sched.started, |s.sched.jobs| - |s.sched.runners|, s.sched.starting
  {
    run := [];
    if s.main.Starting? {
      var a := if s.sched.started && !s.sched.starting then Launch
               else if !s.sched.started then Sched(P.StartLock)
               else if |s.sched.runners| < |s.sched.jobs| then Sched(P.Spawn)
               else Sched(P.StartUnlock);
      var t := Apply(s, a);
      InsideKept(s, a);
      FirstWinsKept(s, a);
      InOrderKept(s, a);
      StartsUp(s, a);
      hide Apply, Enabled, Inside, FirstWins, InOrder;
      var rest := GetsToWaiting(t);
      RunFrom(s, a, rest);
      run := [a] + rest;
    }
  }

  lemma StartsUp(s: State, a: Action)
    requires Enabled(s, a) && s.main.Starting?
    requires a == Launch || a == Sched(P.StartLock) || a == Sched(P.Spawn) || a == Sched(P.StartUnlock)
    ensures var t := Apply(s, a);
            && t.exit.None? && t.sched.parent == s.sched.parent
            && (a == Launch <==> t.main.Waiting?) && (a == Launch || t.main.Starting?)
            && (s.sched.started ==> t.sched.started) && (a == Sched(P.StartLock) ==> t.sched.started)
            && t.sched.jobs == s.sched.jobs
            && |t.sched.runners| == |s.sched.runners| + (if a == Sched(P.Spawn) then 1 else 0)
            && (a == Sched(P.StartUnlock) ==> !t.sched.starting)
  {}

  /** What cancels appCtx stops the process, in order. Wherever appCtx has been cancelled and main
      is not yet woken, the process can go on to end with the code its cause calls for: 0 when
      it was a signal, the fatal one when it was a fatal job. */
  lemma CancellationEnds(now: int, before: seq<Action>) returns (run: seq<Action>)
    requires CanRun(Boot(now), before)
    requires var s := AfterRun(Boot(now), before);
             s.exit.None? && s.sched.parent.Some? && (s.main.Starting? || s.main.Waiting?)
    ensures var s := AfterRun(Boot(now), before);
            && CanRun(s, run)
            && AfterRun(s, run).exit
                 == Some(Code(if s.sched.parent.value.Failure? then FATAL_TASK_ERROR else 0))
  {
    var s := AfterRun(Boot(now), before);
    InvariantsHold(Boot(now), before);
    var up := GetsToWaiting(s);
    var waiting := AfterRun(s, up);
    var woken := Apply(waiting, Wake);
    var late := Apply(woken, DeadlinePasses);
    WokenByFirst(waiting);
    InsideKept(waiting, Wake);
    InOrderKept(waiting, Wake);
    InsideKept(woken, DeadlinePasses);
    InOrderKept(woken, DeadlinePasses);
    run := MainEndsAlone(late, true);
    hide InOrder, Inside, FirstWins, CanRun, AfterRun;
    RunFrom(woken, DeadlinePasses, run);
    run := [DeadlinePasses] + run;
    RunFrom(waiting, Wake, run);
    run := [Wake] + run;
    RunsCompose(s, up, run);
    run := up + run;
  }

  // ---- main, from the moment it is woken ----

  /** From `<-appCtx.Done()` to the exit: the jobs are stopped, with others running meanwhile,
      then the server is drained, and the exit code tells a fatal job from a signal. */
  method ShutDownAndExit(sched: O.Scheduler, locking: seq<P.Action>, unlocked: seq<P.Action>,
                         waiting: seq<P.Action>, pickDone: bool, drains: bool)
    returns (code: nat, failed: bool)
    requires sched.parent.Some?
    requires P.CanRun(sched.Value(), locking) && !P.AfterRun(sched.Value(), locking).starting
    requires var s := P.AfterRun(sched.Value(), locking);
             s.started ==> O.StopsAndWakes(P.Apply(s, P.ShutdownRead), unlocked, waiting, |s.calls|)
    modifies sched
    ensures P.AfterRun(old(sched.Value()), locking).started ==> sched.runCtx.Some?
    ensures old(Lifecycle(sched.Value()) && Registered(sched.jobs)) ==>
              Lifecycle(sched.Value())
              && (P.AfterRun(old(sched.Value()), locking).started && !failed ==> AllExited(sched.runners))
    ensures code == SERVER_SHUTDOWN_ERROR <==> !drains
    ensures var cause := old(sched.parent.value);
            drains ==> (code == FATAL_TASK_ERROR <==> cause.Failure? && HasFatal(cause.err))
    ensures drains && code != FATAL_TASK_ERROR ==> code == 0
  {
    var cause := sched.parent.value;
    var isFatal := IsFatal(cause);
    if cause.Failure? {
      AsFatalIff(cause.err);
    }
    hide P.Apply, P.AfterRun, P.CanRun, Lifecycle, Registered;
    var _, stopFailed, _ := sched.Shutdown(locking, unlocked, waiting, pickDone);
    failed := stopFailed;
    if !drains {
      code := SERVER_SHUTDOWN_ERROR;
    } else {
      code := if isFatal then FATAL_TASK_ERROR else 0;
    }
  }
}
