/** The scheduler as a step protocol. Every action is one indivisible piece of the code of one
    goroutine, so that a run, any sequence of enabled actions, is one interleaving of the
    runners, `Start`, any number of `Shutdown` callers, the clock and the parent context. */
module Protocol {
  import opened GoTime
  import opened Wrappers
  import opened Schedules
  import opened JobErrors

  type LiveSchedule = s: Schedule | Valid(s) witness Once(0, true)

  /** Why a context was cancelled. */
  datatype Cause = SchedulerClosed | Signal | Failure(err: Error)

  datatype Job = Job(name: string, schedule: LiveSchedule)

  /** One run of a job body: the instant it was due, when the body started and returned, and
      whether the context it was handed was cancelled by then. */
  datatype RunRecord = RunRecord(slot: Time, start: Time, end: Time, cancelled: bool)

  /** Where a runner is in `run`. `late` marks a timer armed after cancellation. */
  datatype Phase =
    | Asking                                                    // about to call Next
    | Ready(next: Time)                                         // about to create its timer
    | Armed(next: Time, deadline: Time, late: bool)             // at the select
    | Running(next: Time, start: Time, cancelled: bool)         // in the job body
    | Escalating(err: Error)                                    // at fatalOnce.Do
    | InHook(err: Error)                                        // won the once, hook not called
    | Hooked(err: Error)                                        // hook returned, before cancelCause
    | Exited

  /** A runner, with the history of its readings of the clock for `Next` and of its runs. */
  datatype Runner = Runner(schedule: LiveSchedule, readings: seq<Time>, phase: Phase, log: seq<RunRecord>)

  /** `fatalOnce`: who is inside and with which error, or which error it was done for. */
  datatype OnceState = Idle | Busy(owner: nat, err: Error) | Done(err: Error)

  datatype CallPhase = Read | Waiting | ReturnedNil | ReturnedErr

  /** One call of `Shutdown`: whether it saw the scheduler started, whether its `done` channel
      is closed, and whether its caller's context has ended. */
  datatype Call = Call(sawStarted: bool, phase: CallPhase, drained: bool, expired: bool)

  datatype State = State(
    now: Time,
    jobs: seq<Job>,
    started: bool,
    starting: bool,            // Start holds the mutex
    hasHook: bool,
    parent: Option<Cause>,     // the context passed to Start
    runCtx: Option<Cause>,
    wg: int,
    once: OnceState,
    hookCalls: seq<Error>,
    runners: seq<Runner>,      // those whose goroutine has been started
    calls: seq<Call>)

  /** The pieces of `run`, `invoke` and `triggerFatal`. */
  datatype Step =
    | Ask                          // read the clock and call Next
    | Arm                          // read the clock and create the timer
    | TakeCancel                   // select picks runCtx.Done()
    | TakeTimer                    // select picks the timer; the body starts
    | BodyEnds(outcome: Outcome)
    | EnterOnce
    | CallHook
    | CancelAll                    // s.cancelCause(err); the once is done
    | SkipOnce                     // another runner's once is already done

  datatype Action =
    | Tick(t: Time)
    | Add(name: string, schedule: Option<LiveSchedule>, hasFn: bool)
    | StartLock
    | Spawn
    | StartUnlock
    | CancelParent(cause: Cause)
    | Propagate
    | Go(runner: nat, step: Step)
    | ShutdownRead
    | ShutdownCancel(call: nat)
    | Drained(call: nat)
    | CallerDone(call: nat)
    | ReturnNil(call: nat)
    | ReturnErr(call: nat)

  // ---- One runner ----

  predicate StepEnabled(s: State, i: nat, step: Step)
    requires i < |s.runners|
  {
    var p := s.runners[i].phase;
    match step
    case Ask => p.Asking?
    case Arm => p.Ready?
    case TakeCancel => p.Armed? && s.runCtx.Some?
    case TakeTimer => p.Armed? && s.now >= p.deadline
    case BodyEnds(_) => p.Running?
    case EnterOnce => p.Escalating? && s.once.Idle?
    case CallHook => p.InHook?
    case CancelAll => p.Hooked?
    case SkipOnce => p.Escalating? && s.once.Done?
  }

  /** What a step makes of the runner that takes it. */
  function Advance(r: Runner, step: Step, now: Time, cancelled: bool): Runner
    requires match step
             case Ask => r.phase.Asking?
             case Arm => r.phase.Ready?
             case TakeCancel => r.phase.Armed? && cancelled
             case TakeTimer => r.phase.Armed? && now >= r.phase.deadline
             case BodyEnds(_) => r.phase.Running?
             case EnterOnce => r.phase.Escalating?
             case CallHook => r.phase.InHook?
             case CancelAll => r.phase.Hooked?
             case SkipOnce => r.phase.Escalating?
  {
    match step
    case Ask =>
      var a := Next(r.schedule, now);
      Runner(a.schedule, r.readings + [now], if a.fire.Some? then Ready(a.fire.value) else Exited, r.log)
    case Arm => r.(phase := Armed(r.phase.next, now + Sub(r.phase.next, now), cancelled))
    case TakeCancel => r.(phase := Exited)
    case TakeTimer => r.(phase := Running(r.phase.next, now, cancelled))
    case BodyEnds(outcome) =>
      var err := Escalation(outcome);
      r.(log := r.log + [RunRecord(r.phase.next, r.phase.start, now, r.phase.cancelled)],
         phase := if err.Some? then Escalating(err.value) else Asking)
    case EnterOnce => r.(phase := InHook(r.phase.err))
    case CallHook => r.(phase := Hooked(r.phase.err))
    case CancelAll => r.(phase := Asking)
    case SkipOnce => r.(phase := Asking)
  }

  /** The first cancellation of a context gives its cause; later ones have no effect. */
  function Cancel(ctx: Option<Cause>, cause: Cause): (r: Option<Cause>)
    ensures r.Some? && (ctx.Some? ==> r == ctx)
  {
    if ctx.Some? then ctx else Some(cause)
  }

  function TakeStep(s: State, i: nat, step: Step): State
    requires i < |s.runners| && StepEnabled(s, i, step)
  {
    var r := s.runners[i];
    var r' := Advance(r, step, s.now, s.runCtx.Some?);
    var s' := s.(runners := s.runners[i := r'], wg := s.wg - if r'.phase.Exited? then 1 else 0);
    match step
    case EnterOnce => s'.(once := Busy(i, r.phase.err))
    case CallHook => s'.(hookCalls := if s.hasHook then s.hookCalls + [r.phase.err] else s.hookCalls)
    case CancelAll => s'.(runCtx := Cancel(s.runCtx, Failure(r.phase.err)), once := Done(r.phase.err))
    case _ => s'
  }

  lemma StepKeepsCalls(s: State, i: nat, step: Step)
    requires i < |s.runners| && StepEnabled(s, i, step)
    ensures TakeStep(s, i, step).calls == s.calls
  {}

  // ---- Registration ----

  datatype AddResult = Added | AfterStart | EmptyName | Incomplete | DuplicateName

  function AddOutcome(s: State, name: string, schedule: Option<LiveSchedule>, hasFn: bool): AddResult {
    if s.started then AfterStart
    else if name == "" then EmptyName
    else if schedule.None? || !hasFn then Incomplete
    else if exists i :: 0 <= i < |s.jobs| && s.jobs[i].name == name then DuplicateName
    else Added
  }

  // ---- All actions ----

  predicate Enabled(s: State, a: Action) {
    match a
    case Tick(t) => t >= s.now
    case Add(_, _, _) => !s.starting
    case StartLock => !s.starting
    case Spawn => s.starting && |s.runners| < |s.jobs|
    case StartUnlock => s.starting && |s.runners| == |s.jobs|
    case CancelParent(_) => true
    case Propagate => s.started && s.parent.Some?
    case Go(i, step) => i < |s.runners| && StepEnabled(s, i, step)
    case ShutdownRead => !s.starting
    case ShutdownCancel(c) => c < |s.calls| && s.calls[c].phase == Read
    case Drained(c) => c < |s.calls| && s.calls[c].phase != Read && s.calls[c].sawStarted && s.wg == 0
    case CallerDone(c) => c < |s.calls|
    case ReturnNil(c) => c < |s.calls| && s.calls[c].phase == Waiting && s.calls[c].drained
    case ReturnErr(c) => c < |s.calls| && s.calls[c].phase == Waiting && s.calls[c].expired
  }

  function SetCall(s: State, c: nat, call: Call): State
    requires c < |s.calls|
  {
    s.(calls := s.calls[c := call])
  }

  /** The runner that `go s.run(j)` starts for the next job. */
  function Spawned(s: State): Runner
    requires |s.runners| < |s.jobs|
  {
    Runner(s.jobs[|s.runners|].schedule, [], Asking, [])
  }

  function Apply(s: State, a: Action): State
    requires Enabled(s, a)
  {
    match a
    case Tick(t) => s.(now := t)
    case Add(name, schedule, hasFn) =>
      if AddOutcome(s, name, schedule, hasFn) == Added
      then s.(jobs := s.jobs + [Job(name, schedule.value)])
      else s
    case StartLock => if s.started then s else s.(started := true, starting := true)
    case Spawn =>
      s.(runners := s.runners + [Spawned(s)], wg := s.wg + 1)
    case StartUnlock => s.(starting := false)
    case CancelParent(cause) => s.(parent := Cancel(s.parent, cause))
    case Propagate => s.(runCtx := Cancel(s.runCtx, s.parent.value))
    case Go(i, step) => TakeStep(s, i, step)
    case ShutdownRead =>
      s.(calls := s.calls + [Call(s.started, if s.started then Read else ReturnedNil, false, false)])
    case ShutdownCancel(c) =>
      SetCall(s, c, s.calls[c].(phase := Waiting)).(runCtx := Cancel(s.runCtx, SchedulerClosed))
    case Drained(c) => SetCall(s, c, s.calls[c].(drained := true))
    case CallerDone(c) => SetCall(s, c, s.calls[c].(expired := true))
    case ReturnNil(c) => SetCall(s, c, s.calls[c].(phase := ReturnedNil))
    case ReturnErr(c) => SetCall(s, c, s.calls[c].(phase := ReturnedErr))
  }

  /** What no action but a runner's own step changes. */
  lemma OthersLeaveRunners(s: State, a: Action)
    requires Enabled(s, a) && !a.Go?
    ensures var t := Apply(s, a);
            && t.once == s.once && t.hookCalls == s.hookCalls && t.hasHook == s.hasHook
            && (s.runCtx.Some? ==> t.runCtx == s.runCtx)
            && t.now >= s.now && (a.Tick? || t.now == s.now)
            && t.runners == if a.Spawn? then s.runners + [Spawned(s)] else s.runners
  {}

  function WithRunner(s: State, i: nat, r: Runner): State
    requires i < |s.runners|
  {
    s.(runners := s.runners[i := r])
  }

  /** A step that neither exits nor touches the once changes only its own runner. */
  lemma PlainStep(s: State, i: nat, step: Step)
    requires i < |s.runners| && StepEnabled(s, i, step)
    requires step.Ask? || step.Arm? || step.TakeTimer? || step.BodyEnds?
    requires !Advance(s.runners[i], step, s.now, s.runCtx.Some?).phase.Exited?
    ensures Apply(s, Go(i, step)) == WithRunner(s, i, Advance(s.runners[i], step, s.now, s.runCtx.Some?))
  {}

  // ---- Runs ----

  /** A new scheduler, before any `Add`. */
  function New(now: Time, hasHook: bool): State {
    State(now, [], false, false, hasHook, None, None, 0, Idle, [], [], [])
  }

  predicate CanRun(s: State, run: seq<Action>)
    decreases |run|
  {
    run == [] || (Enabled(s, run[0]) && CanRun(Apply(s, run[0]), run[1..]))
  }

  function AfterRun(s: State, run: seq<Action>): State
    requires CanRun(s, run)
    decreases |run|
  {
    if run == [] then s else AfterRun(Apply(s, run[0]), run[1..])
  }

  lemma {:induction false} RunsCompose(s: State, run: seq<Action>, more: seq<Action>)
    requires CanRun(s, run)
    ensures CanRun(s, run + more) <==> CanRun(AfterRun(s, run), more)
    ensures CanRun(s, run + more) ==> AfterRun(s, run + more) == AfterRun(AfterRun(s, run), more)
    decreases |run|
  {
    if run == [] {
      assert run + more == more;
    } else {
      assert (run + more)[1..] == run[1..] + more;
      RunsCompose(Apply(s, run[0]), run[1..], more);
    }
  }

  /** A run built backwards from its last action. */
  lemma RunFrom(s: State, a: Action, rest: seq<Action>)
    requires Enabled(s, a) && CanRun(Apply(s, a), rest)
    ensures CanRun(s, [a] + rest) && AfterRun(s, [a] + rest) == AfterRun(Apply(s, a), rest)
  {
    assert ([a] + rest)[1..] == rest;
  }

  lemma SingleRun(s: State, a: Action)
    requires Enabled(s, a)
    ensures CanRun(s, [a]) && AfterRun(s, [a]) == Apply(s, a)
  {
    RunFrom(s, a, []);
    assert [a] + [] == [a];
  }

  /** A run extended by one action at its end. */
  lemma RunAndThen(s: State, run: seq<Action>, a: Action)
    requires CanRun(s, run) && Enabled(AfterRun(s, run), a)
    ensures CanRun(s, run + [a]) && AfterRun(s, run + [a]) == Apply(AfterRun(s, run), a)
  {
    var t := AfterRun(s, run);
    assert AfterRun(t, [a]) == Apply(t, a);
    RunsCompose(s, run, [a]);
  }

  /** A run split at its last action. */
  lemma {:induction false} LastAction(s: State, run: seq<Action>)
    requires CanRun(s, run) && run != []
    ensures var before, a := run[..|run| - 1], run[|run| - 1];
            && CanRun(s, before) && Enabled(AfterRun(s, before), a)
            && AfterRun(s, run) == Apply(AfterRun(s, before), a)
    decreases |run|
  {
    if |run| > 1 {
      LastAction(Apply(s, run[0]), run[1..]);
      assert run[1..][..|run| - 2] == run[..|run| - 1][1..];
    } else {
      assert run == [run[0]] && run[..0] == [];
    }
  }
}
