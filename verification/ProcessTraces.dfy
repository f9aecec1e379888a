/** A run of the process told from its actions alone, as `Traces` does for the scheduler inside
    it: where main is, what has cancelled appCtx, and how the process ends. */
module ProcessTraces {
  import opened Wrappers
  import opened App
  import P = Protocol
  import T = Traces

  /** The scheduler's part of the run: its own actions, a cancellation of appCtx for each signal
      that is still handled and for each error given to the hook, and main's `Shutdown`. */
  function Inner(now: int, run: seq<Action>): seq<P.Action> {
    if run == [] then []
    else
      var before := run[..|run| - 1];
      var inner := Inner(now, before);
      match run[|run| - 1]
      case Sched(x) =>
        inner + [x]
        + if x.Go? && x.step.CallHook? then [P.CancelParent(P.Failure(T.ReturnedBy(now, inner, x.runner)))] else []
      case SignalArrives => if Wake in before then inner else inner + [P.CancelParent(P.Signal)]
      case BeginStop => inner + [P.ShutdownRead]
      case _ => inner
  }

  /** The first cancellation of appCtx was a fatal job's. */
  predicate FatalFirst(now: int, run: seq<Action>) {
    var cause := T.ParentCause(Inner(now, run));
    cause.Some? && cause.value.Failure?
  }

  /** How the process has ended: a signal kills it once main has given up handling them, and main
      or the listener exits with its code. */
  function ExitIn(now: int, run: seq<Action>): Option<Exit> {
    if run == [] then None
    else
      var before := run[..|run| - 1];
      match run[|run| - 1]
      case SignalArrives => if Wake in before then Some(Killed) else None
      case ListenFails => Some(Code(SERVER_CLOSED_UNEXPECTEDLY))
      case Drained(ok) => if ok then None else Some(Code(SERVER_SHUTDOWN_ERROR))
      case Return => Some(Code(if FatalFirst(now, before) then FATAL_TASK_ERROR else 0))
      case _ => None
  }

  /** Where main is: how far it has come, and whether what woke it was fatal. */
  function MainIn(now: int, run: seq<Action>): Main {
    var fatal := FatalFirst(now, run);
    if Launch !in run then Starting
    else if Wake !in run then Waiting
    else if BeginStop !in run then Woken(fatal)
    else if StopReturns !in run then Stopping(fatal, 0)
    else if Drained(true) !in run then Draining(fatal)
    else Finishing(fatal)
  }

  ghost predicate InnerRuns(s: State, now: int, run: seq<Action>) {
    P.CanRun(P.New(now, true), Inner(now, run)) && s.sched == P.AfterRun(P.New(now, true), Inner(now, run))
  }

  ghost predicate MainAgrees(s: State, now: int, run: seq<Action>) {
    && s.main == MainIn(now, run)
    && (Launch !in run ==> Wake !in run) && (Wake !in run ==> BeginStop !in run)
    && (BeginStop !in run ==> StopReturns !in run) && (StopReturns !in run ==> Drained(true) !in run)
    && (Wake in run ==> s.sched.parent.Some?)
    && (s.listening <==> Launch in run && StopReturns !in run)
    && (s.deadlinePassed <==> DeadlinePasses in run)
    && |s.sched.calls| == if BeginStop in run then 1 else 0
  }

  lemma SingleRun(s: State, a: Action)
    requires Enabled(s, a)
    ensures CanRun(s, [a]) && AfterRun(s, [a]) == Apply(s, a)
  {
    RunFrom(s, a, []);
    assert [a] + [] == [a];
  }

  // ---- The process agrees ----

  lemma HookError(s: P.State, now: int, inner: seq<P.Action>, i: nat)
    requires P.CanRun(P.New(now, true), inner) && s == P.AfterRun(P.New(now, true), inner)
    requires i < |s.runners| && s.runners[i].phase.InHook?
    ensures s.hasHook && T.ReturnedBy(now, inner, i) == s.runners[i].phase.err
  {
    T.StateIsHistory(now, true, inner);
    assert T.Traced(s.jobs[i].schedule, s.runners[i], T.Trace(now, inner, i));
    T.ErrorAgrees(s.jobs[i].schedule, T.Trace(now, inner, i), s.runners[i].phase);
    hide P.CanRun, P.AfterRun, T.StandsAt, T.Recorded;
  }

  lemma InnerRunsKept(s: State, now: int, before: seq<Action>, a: Action)
    requires InnerRuns(s, now, before) && MainAgrees(s, now, before) && Enabled(s, a)
    ensures InnerRuns(Apply(s, a), now, before + [a])
  {
    var inner := Inner(now, before);
    assert (before + [a])[..|before|] == before;
    hide P.CanRun, P.AfterRun, P.Apply;
    match a
    case Sched(x) =>
      P.RunAndThen(P.New(now, true), inner, x);
      assert inner + [x] + [] == inner + [x];
      if x.Go? && x.step.CallHook? {
        HookError(s.sched, now, inner, x.runner);
        var cancel := P.CancelParent(P.Failure(T.ReturnedBy(now, inner, x.runner)));
        P.RunAndThen(P.New(now, true), inner + [x], cancel);
      }
    case SignalArrives =>
      if Wake !in before {
        P.RunAndThen(P.New(now, true), inner, P.CancelParent(P.Signal));
      }
    case BeginStop => P.RunAndThen(P.New(now, true), inner, P.ShutdownRead);
    case _ =>
  }

  lemma ParentAgrees(s: State, now: int, run: seq<Action>)
    requires InnerRuns(s, now, run)
    ensures s.sched.parent == T.ParentCause(Inner(now, run))
  {
    T.StateIsHistory(now, true, Inner(now, run));
    hide T.StartAgrees, T.CallsAgree, T.RunnersAgree;
  }

  /** Once main is woken, what woke it does not change. */
  lemma FatalFirstStays(s: State, now: int, before: seq<Action>, a: Action)
    requires InnerRuns(s, now, before) && Enabled(s, a) && InnerRuns(Apply(s, a), now, before + [a])
    ensures s.sched.parent.Some? ==>
              FatalFirst(now, before + [a]) == FatalFirst(now, before) == s.sched.parent.value.Failure?
    ensures s.sched.parent.Some? ==> Apply(s, a).sched.parent.Some?
  {
    ParentAgrees(s, now, before);
    ParentAgrees(Apply(s, a), now, before + [a]);
    if a.Sched? {
      ProcessSteps(s, a.a);
    }
    hide P.CanRun, P.AfterRun, Inner, T.ParentCause;
  }

  lemma CallCount(s: P.State, x: P.Action)
    requires P.Enabled(s, x)
    ensures |P.Apply(s, x).calls| == |s.calls| + if x.ShutdownRead? then 1 else 0
  {
    T.CallsGrow(s, x);
  }

  lemma CallCountKept(s: State, a: Action)
    requires Enabled(s, a)
    ensures |Apply(s, a).sched.calls| == |s.sched.calls| + if a.BeginStop? then 1 else 0
  {
    if a.Sched? {
      ProcessSteps(s, a.a);
      CallCount(s.sched, a.a);
    }
  }

  lemma InnerStepKeepsMain(s: State, now: int, before: seq<Action>, x: P.Action)
    requires MainAgrees(s, now, before) && Enabled(s, Sched(x))
    requires s.sched.parent.Some? ==>
               FatalFirst(now, before + [Sched(x)]) == FatalFirst(now, before) && Apply(s, Sched(x)).sched.parent.Some?
    ensures MainAgrees(Apply(s, Sched(x)), now, before + [Sched(x)])
  {
    CallCountKept(s, Sched(x));
    ProcessSteps(s, x);
    assert forall y :: y in before + [Sched(x)] && !y.Sched? <==> y in before && !y.Sched?;
    hide Apply, FatalFirst;
  }

  /** What main's steps, and those of the environment, change. */
  lemma OwnStepMoves(s: State, a: Action)
    requires Enabled(s, a) && !a.Sched?
    ensures var t := Apply(s, a);
            && t.listening == (if a.Launch? then true else if a.StopReturns? then false else s.listening)
            && t.deadlinePassed == (s.deadlinePassed || a.DeadlinePasses?)
            && t.main == match a
                         case Launch => Waiting
                         case Wake => Woken(IsFatal(s.sched.parent.value))
                         case BeginStop => Stopping(s.main.fatal, |s.sched.calls|)
                         case StopReturns => Draining(s.main.fatal)
                         case Drained(ok) => if ok then Finishing(s.main.fatal) else s.main
                         case _ => s.main
  {
    hide P.Apply, IsFatal;
  }

  lemma OwnStepKeepsMain(s: State, now: int, before: seq<Action>, a: Action)
    requires MainAgrees(s, now, before) && Enabled(s, a) && !a.Sched?
    requires s.sched.parent.Some? ==>
               && FatalFirst(now, before + [a]) == FatalFirst(now, before) == s.sched.parent.value.Failure?
               && Apply(s, a).sched.parent.Some?
    requires a.Wake? ==> (IsFatal(s.sched.parent.value) <==> s.sched.parent.value.Failure?)
    ensures MainAgrees(Apply(s, a), now, before + [a])
  {
    CallCountKept(s, a);
    OwnStepMoves(s, a);
    hide Apply, FatalFirst, IsFatal;
    assert forall y :: y in before + [a] <==> y in before || y == a;
  }

  lemma MainAgreesKept(s: State, now: int, before: seq<Action>, a: Action)
    requires InnerRuns(s, now, before) && MainAgrees(s, now, before) && Enabled(s, a)
    requires InnerRuns(Apply(s, a), now, before + [a])
    requires Inside(s) && FirstWins(s)
    ensures MainAgrees(Apply(s, a), now, before + [a])
  {
    FatalFirstStays(s, now, before, a);
    hide Apply, InnerRuns, MainAgrees, FatalFirst, IsFatal;
    if a.Sched? {
      InnerStepKeepsMain(s, now, before, a.a);
    } else {
      if a.Wake? {
        WokenByFirst(s);
      }
      OwnStepKeepsMain(s, now, before, a);
    }
  }

  lemma ExitAgreesKept(s: State, now: int, before: seq<Action>, a: Action)
    requires InnerRuns(s, now, before) && MainAgrees(s, now, before) && Enabled(s, a)
    ensures Apply(s, a).exit == ExitIn(now, before + [a])
  {
    assert (before + [a])[..|before|] == before;
    hide P.Apply, P.CanRun, P.AfterRun, Inner;
  }

  ghost predicate Agrees(s: State, now: int, run: seq<Action>) {
    InnerRuns(s, now, run) && MainAgrees(s, now, run) && s.exit == ExitIn(now, run)
  }

  /** In every run of the process: the scheduler inside has run as the protocol does, main is
      where its own steps have brought it, with the flag that the first cancellation calls for,
      and the process has ended as its last action says, or not at all. */
  lemma {:induction false} StateIsHistory(now: int, run: seq<Action>)
    requires CanRun(Boot(now), run)
    ensures Agrees(AfterRun(Boot(now), run), now, run)
    decreases |run|
  {
    if run != [] {
      var before, a := run[..|run| - 1], run[|run| - 1];
      LastAction(Boot(now), run);
      StateIsHistory(now, before);
      InvariantsHold(Boot(now), before);
      var s := AfterRun(Boot(now), before);
      InnerRunsKept(s, now, before, a);
      MainAgreesKept(s, now, before, a);
      ExitAgreesKept(s, now, before, a);
      assert before + [a] == run;
      hide InnerRuns, MainAgrees, Apply;
    }
  }

  /** What can happen after a run of the process, told from the run. */
  ghost predicate Possible(now: int, run: seq<Action>, a: Action) {
    var inner := Inner(now, run);
    && ExitIn(now, run).None?
    && match a
       case Sched(x) =>
         && T.Possible(now, inner, x) && !x.CancelParent? && !x.ShutdownRead?
         && (x.CallerDone? ==> DeadlinePasses in run)
       case SignalArrives => true
       case Launch => Launch !in run && P.StartUnlock in inner
       case ListenFails => Launch in run && StopReturns !in run
       case Wake => Launch in run && Wake !in run && T.ParentCause(inner).Some?
       case BeginStop => Wake in run && BeginStop !in run
       case DeadlinePasses => Wake in run
       case StopReturns =>
         BeginStop in run && StopReturns !in run && (P.ReturnNil(0) in inner || P.ReturnErr(0) in inner)
       case Drained(_) => StopReturns in run && Drained(true) !in run
       case Return => Drained(true) in run
  }

  lemma CallReturnedIff(s: P.State, inner: seq<P.Action>)
    requires T.CallsAgree(s, inner) && |s.calls| == 1 && s.calls[0].sawStarted
    ensures s.calls[0].phase in {P.ReturnedNil, P.ReturnedErr}
       <==> P.ReturnNil(0) in inner || P.ReturnErr(0) in inner
  {
    assert T.CallStands(inner, 0, T.Saw(inner)[0], s.calls[0]);
  }

  /** Exactly what the history allows can happen next in the process. */
  lemma PossibleIff(now: int, run: seq<Action>, a: Action)
    requires CanRun(Boot(now), run)
    ensures Enabled(AfterRun(Boot(now), run), a) <==> Possible(now, run, a)
  {
    var s, inner := AfterRun(Boot(now), run), Inner(now, run);
    StateIsHistory(now, run);
    InvariantsHold(Boot(now), run);
    T.StateIsHistory(now, true, inner);
    ParentAgrees(s, now, run);
    if a.Sched? {
      T.PossibleIff(now, true, inner, a.a);
    } else if a.StopReturns? && s.main.Stopping? {
      CallReturnedIff(s.sched, inner);
    }
    hide T.CausesAgree, T.CallsAgree, T.RunnersAgree, T.Possible, Inside, FirstWins, Inner, ExitIn,
      P.CanRun, P.AfterRun, P.Enabled, CanRun, AfterRun;
  }

  lemma ExitSays(now: int, run: seq<Action>)
    ensures ExitIn(now, run) == Some(Killed) <==>
              run != [] && run[|run| - 1] == SignalArrives && Wake in run[..|run| - 1]
  {
    hide FatalFirst;
  }

  lemma SignalSays(s: State)
    requires Enabled(s, SignalArrives)
    ensures var t := Apply(s, SignalArrives);
            if !s.main.Starting? && !s.main.Waiting? then t.exit == Some(Killed)
            else t.exit.None? && t.sched.parent.Some? && t.main == s.main
                 && (s.sched.parent.None? ==> t.sched.parent == Some(P.Signal))
  {}

  /** What a signal does. Until main is woken it cancels appCtx and nothing else ends with it;
      once main is woken, which gives up handling signals, it kills the process; and nothing
      else kills it. */
  lemma SignalKillsIff(now: int, run: seq<Action>)
    requires CanRun(Boot(now), run)
    ensures var s := AfterRun(Boot(now), run);
            && (s.exit == Some(Killed) <==>
                  run != [] && run[|run| - 1] == SignalArrives && Wake in run[..|run| - 1])
            && (s.exit.None? ==>
                  && Enabled(s, SignalArrives)
                  && var t := Apply(s, SignalArrives);
                     if Wake in run then t.exit == Some(Killed)
                     else t.exit.None? && t.sched.parent.Some? && t.main == s.main
                          && (s.sched.parent.None? ==> t.sched.parent == Some(P.Signal)))
  {
    var s := AfterRun(Boot(now), run);
    StateIsHistory(now, run);
    ExitSays(now, run);
    hide InnerRuns, CanRun, AfterRun, ExitIn;
    if s.exit.None? {
      SignalSays(s);
    }
    hide Apply, FatalFirst;
  }

  /** A signal stops the process in order: from anywhere before main is woken, if nothing has
      cancelled appCtx yet, the process can go on to end with code 0. */
  lemma SignalStopsProcess(now: int, run: seq<Action>) returns (rest: seq<Action>)
    requires CanRun(Boot(now), run) && AfterRun(Boot(now), run).exit.None?
    requires Wake !in run && AfterRun(Boot(now), run).sched.parent.None?
    ensures CanRun(AfterRun(Boot(now), run), [SignalArrives] + rest)
    ensures AfterRun(AfterRun(Boot(now), run), [SignalArrives] + rest).exit == Some(Code(0))
  {
    var s := AfterRun(Boot(now), run);
    StateIsHistory(now, run);
    SignalKillsIff(now, run);
    hide Agrees, Apply, Enabled, CanRun, AfterRun;
    var t := Apply(s, SignalArrives);
    SingleRun(s, SignalArrives);
    RunsCompose(Boot(now), run, [SignalArrives]);
    rest := CancellationEnds(now, run + [SignalArrives]);
    RunFrom(s, SignalArrives, rest);
  }
}
