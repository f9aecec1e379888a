/** A run of the scheduler told from its actions alone. The clock, who has been cancelled and
    why, what each runner has done and where it stands, what each `Shutdown` call has seen: all
    are read off the sequence of actions here, by definitions that do not use the protocol's
    state, and the protocol is proved to agree with them in every run. */
module Traces {
  import opened GoTime
  import opened Wrappers
  import opened Schedules
  import opened Firing
  import opened JobErrors
  import opened Protocol
  import opened DrainSafety
  import opened JobRuns
  import opened JobTheorems

  // ---- The environment ----

  function Clock(now: Time, run: seq<Action>): Time {
    if run == [] then now
    else
      match run[|run| - 1]
      case Tick(t) => t
      case _ => Clock(now, run[..|run| - 1])
  }

  /** What cancels the jobs' context: its parent, a `Shutdown`, or a fatal job. */
  predicate Cancels(a: Action) {
    a.Propagate? || a.ShutdownCancel? || (a.Go? && a.step.CancelAll?)
  }

  predicate CancelledIn(run: seq<Action>) {
    run != [] && (Cancels(run[|run| - 1]) || CancelledIn(run[..|run| - 1]))
  }

  // ---- One runner ----

  /** A step of a runner: what the clock said then, and whether its context was cancelled. */
  datatype Event = Event(step: Step, at: Time, cancelled: bool)

  function Trace(now: Time, run: seq<Action>, i: nat): seq<Event> {
    if run == [] then []
    else
      var before, a := run[..|run| - 1], run[|run| - 1];
      Trace(now, before, i)
      + if a.Go? && a.runner == i then [Event(a.step, Clock(now, before), CancelledIn(before))] else []
  }

  lemma TraceGrows(now: Time, before: seq<Action>, a: Action, i: nat)
    ensures Trace(now, before + [a], i)
         == if a.Go? && a.runner == i
            then Trace(now, before, i) + [Event(a.step, Clock(now, before), CancelledIn(before))]
            else Trace(now, before, i)
  {
    assert (before + [a])[..|before|] == before;
  }

  /** When the runner asked its schedule. */
  function Asks(events: seq<Event>): seq<Time> {
    if events == [] then []
    else
      var last := events[|events| - 1];
      Asks(events[..|events| - 1]) + if last.step.Ask? then [last.at] else []
  }

  /** When its bodies started, and with a cancelled context or not. */
  function Begun(events: seq<Event>): seq<Event> {
    if events == [] then []
    else
      var last := events[|events| - 1];
      Begun(events[..|events| - 1]) + if last.step.TakeTimer? then [last] else []
  }

  function Ended(events: seq<Event>): seq<Event> {
    if events == [] then []
    else
      var last := events[|events| - 1];
      Ended(events[..|events| - 1]) + if last.step.BodyEnds? then [last] else []
  }

  /** The error its last body returned. */
  function LastReturned(events: seq<Event>): Option<Error> {
    if events == [] then None
    else
      match events[|events| - 1].step
      case BodyEnds(outcome) => if outcome.Returned? then outcome.err else None
      case _ => LastReturned(events[..|events| - 1])
  }

  /** When a timer made at `at` for instant `next` is due: then, up to a duration either way. */
  function Due(next: Time, at: Time): Time {
    if next - at > MAX_DURATION then at + MAX_DURATION
    else if next - at < MIN_DURATION then at + MIN_DURATION
    else next
  }

  /** The body returned an error that must stop the application. */
  ghost predicate Fatally(outcome: Outcome) {
    outcome.Returned? && outcome.err.Some? && HasFatal(outcome.err.value)
  }

  /** The answer to the runner's last question. */
  function Told(schedule: LiveSchedule, events: seq<Event>): Option<Time> {
    if Asks(events) == [] then None else Fire(schedule, Asks(events))
  }

  /** Where its last step has left a runner. */
  ghost predicate StandsAt(schedule: LiveSchedule, events: seq<Event>, p: Phase) {
    if events == [] then p == Asking
    else
      var last, next := events[|events| - 1], Told(schedule, events);
      match last.step
      case Ask => p == if next.Some? then Ready(next.value) else Exited
      case Arm => next.Some? && p == Armed(next.value, Due(next.value, last.at), last.cancelled)
      case TakeCancel => p == Exited && last.cancelled
      case TakeTimer => next.Some? && p == Running(next.value, last.at, last.cancelled)
      case BodyEnds(o) => p == if Fatally(o) then Escalating(o.err.value) else Asking
      case EnterOnce => LastReturned(events).Some? && p == InHook(LastReturned(events).value)
      case CallHook => LastReturned(events).Some? && p == Hooked(LastReturned(events).value)
      case CancelAll => p == Asking
      case SkipOnce => p == Asking
  }

  /** A runner's record is what its steps were: its readings of the clock, and when each of its
      runs started and returned. */
  ghost predicate Recorded(r: Runner, events: seq<Event>) {
    && r.readings == Asks(events)
    && |r.log| == |Ended(events)| && |Starts(r)| == |Begun(events)|
    && (forall k :: 0 <= k < |Begun(events)| ==> Starts(r)[k] == Begun(events)[k].at)
    && (forall k :: 0 <= k < |r.log| ==>
          r.log[k].end == Ended(events)[k].at && r.log[k].cancelled == Begun(events)[k].cancelled)
  }

  ghost predicate Traced(schedule: LiveSchedule, r: Runner, events: seq<Event>) {
    Recorded(r, events) && StandsAt(schedule, events, r.phase)
  }

  lemma OneMoreRun(events: seq<Event>, e: Event)
    ensures var more := events + [e];
            && Asks(more) == (if e.step.Ask? then Asks(events) + [e.at] else Asks(events))
            && Begun(more) == (if e.step.TakeTimer? then Begun(events) + [e] else Begun(events))
            && Ended(more) == (if e.step.BodyEnds? then Ended(events) + [e] else Ended(events))
  {
    assert (events + [e])[..|events|] == events;
  }

  lemma BegunLast(events: seq<Event>)
    ensures events != [] && events[|events| - 1].step.TakeTimer? ==>
              Begun(events) != [] && Begun(events)[|Begun(events)| - 1] == events[|events| - 1]
  {}

  lemma AdvanceRecorded(schedule: LiveSchedule, r: Runner, events: seq<Event>, step: Step, now: Time,
                        cancelled: bool)
    requires Advance.requires(r, step, now, cancelled) && Traced(schedule, r, events)
    ensures Recorded(Advance(r, step, now, cancelled), events + [Event(step, now, cancelled)])
  {
    hide Asks, Begun, Ended, LastReturned, Fire, Next, Escalation, Due, Fatally, Told;
    OneMoreRun(events, Event(step, now, cancelled));
    BegunLast(events);
    if !step.TakeTimer? && !step.BodyEnds? {
      assert Starts(Advance(r, step, now, cancelled)) == Starts(r);
      hide Starts, StandsAt;
    }
  }

  lemma OneMoreEvent(schedule: LiveSchedule, events: seq<Event>, e: Event)
    ensures var more := events + [e];
            && more[|more| - 1] == e
            && Asks(more) == (if e.step.Ask? then Asks(events) + [e.at] else Asks(events))
            && Told(schedule, more)
                 == (if e.step.Ask? then Fire(schedule, Asks(events) + [e.at]) else Told(schedule, events))
            && LastReturned(more) == (if !e.step.BodyEnds? then LastReturned(events)
                                      else if e.step.outcome.Returned? then e.step.outcome.err else None)
  {
    hide Fire;
    assert (events + [e])[..|events|] == events;
  }

  lemma ErrorAgrees(schedule: LiveSchedule, events: seq<Event>, p: Phase)
    requires StandsAt(schedule, events, p) && (p.Escalating? || p.InHook? || p.Hooked?)
    ensures LastReturned(events) == Some(p.err)
  {}

  lemma AskStands(schedule: LiveSchedule, r: Runner, events: seq<Event>, now: Time, cancelled: bool)
    requires r.phase.Asking? && Follows(schedule, r) && Recorded(r, events)
    ensures StandsAt(schedule, events + [Event(Ask, now, cancelled)], Advance(r, Ask, now, cancelled).phase)
  {
    assert r.schedule == After(schedule, r.readings) && r.readings == Asks(events);
    hide Follows, Recorded, Asks, Told, LastReturned, Fire, Next, After;
    OneMoreEvent(schedule, events, Event(Ask, now, cancelled));
    AskedOnceMore(schedule, r.readings, now);
  }

  lemma OtherStands(schedule: LiveSchedule, r: Runner, events: seq<Event>, step: Step, now: Time, cancelled: bool)
    requires Advance.requires(r, step, now, cancelled) && !step.Ask? && StandsAt(schedule, events, r.phase)
    ensures StandsAt(schedule, events + [Event(step, now, cancelled)], Advance(r, step, now, cancelled).phase)
  {
    hide Asks, Told, LastReturned, Fire, Next, After, Escalation, HasFatal;
    OneMoreEvent(schedule, events, Event(step, now, cancelled));
    if step.BodyEnds? {
      EscalatesIff(step.outcome);
    } else if step.EnterOnce? {
      ErrorAgrees(schedule, events, r.phase);
    }
  }

  lemma AdvanceStands(schedule: LiveSchedule, r: Runner, events: seq<Event>, step: Step, now: Time, cancelled: bool)
    requires Advance.requires(r, step, now, cancelled)
    requires Follows(schedule, r) && Traced(schedule, r, events)
    ensures StandsAt(schedule, events + [Event(step, now, cancelled)], Advance(r, step, now, cancelled).phase)
  {
    hide StandsAt, Advance, Follows, Recorded;
    if step.Ask? {
      AskStands(schedule, r, events, now, cancelled);
    } else {
      OtherStands(schedule, r, events, step, now, cancelled);
    }
  }

  // ---- The scheduler ----

  function Launched(run: seq<Action>): nat {
    if run == [] then 0 else Launched(run[..|run| - 1]) + if run[|run| - 1].Spawn? then 1 else 0
  }

  /** Start holds the mutex: it has taken it, as only the first call does, and not released it. */
  predicate Holding(run: seq<Action>) {
    StartLock in run && StartUnlock !in run
  }

  /** The jobs accepted: complete ones with a new name, added before Start. */
  function JobsIn(run: seq<Action>): seq<Job> {
    if run == [] then []
    else
      var before := run[..|run| - 1];
      match run[|run| - 1]
      case Add(name, schedule, hasFn) =>
        if StartLock !in before && name != "" && schedule.Some? && hasFn && NameIsNew(JobsIn(before), name)
        then JobsIn(before) + [Job(name, schedule.value)] else JobsIn(before)
      case _ => JobsIn(before)
  }

  predicate NameIsNew(jobs: seq<Job>, name: string) {
    forall i :: 0 <= i < |jobs| ==> jobs[i].name != name
  }

  /** The first cause given to the parent context. */
  function ParentCause(run: seq<Action>): Option<Cause> {
    if run == [] then None
    else
      var earlier := ParentCause(run[..|run| - 1]);
      if earlier.Some? || !run[|run| - 1].CancelParent? then earlier else Some(run[|run| - 1].cause)
  }

  /** The first cause given to the jobs' context: the parent's, that of `Shutdown`, or the error
      of a fatal job. */
  function RunCause(now: Time, run: seq<Action>): Option<Cause> {
    if run == [] then None
    else
      var before := run[..|run| - 1];
      var earlier := RunCause(now, before);
      if earlier.Some? then earlier
      else
        match run[|run| - 1]
        case Propagate => ParentCause(before)
        case ShutdownCancel(_) => Some(SchedulerClosed)
        case Go(i, CancelAll) => Some(Failure(ReturnedBy(now, before, i)))
        case _ => None
  }

  /** The error that the last body of runner i returned, if it returned one. */
  function ReturnedBy(now: Time, run: seq<Action>, i: nat): Error {
    var err := LastReturned(Trace(now, run, i));
    if err.Some? then err.value else Leaf("")
  }

  /** Who is in the once, or whose error it was done for. */
  function OnceIn(now: Time, run: seq<Action>): OnceState {
    if run == [] then Idle
    else
      var before := run[..|run| - 1];
      match run[|run| - 1]
      case Go(i, EnterOnce) => Busy(i, ReturnedBy(now, before, i))
      case Go(i, CancelAll) => Done(ReturnedBy(now, before, i))
      case _ => OnceIn(now, before)
  }

  function HookCallsIn(now: Time, hasHook: bool, run: seq<Action>): seq<Error> {
    if run == [] then []
    else
      var before := run[..|run| - 1];
      match run[|run| - 1]
      case Go(i, CallHook) => HookCallsIn(now, hasHook, before) + if hasHook then [ReturnedBy(now, before, i)] else []
      case _ => HookCallsIn(now, hasHook, before)
  }

  /** What each call of `Shutdown` saw of `started`. */
  function Saw(run: seq<Action>): seq<bool> {
    if run == [] then []
    else
      var before := run[..|run| - 1];
      Saw(before) + if run[|run| - 1].ShutdownRead? then [StartLock in before] else []
  }

  ghost predicate CallStands(run: seq<Action>, c: nat, saw: bool, call: Call) {
    && call.sawStarted == saw
    && (call.drained <==> Drained(c) in run)
    && (call.expired <==> CallerDone(c) in run)
    && call.phase == (if !saw || ReturnNil(c) in run then ReturnedNil
                      else if ReturnErr(c) in run then ReturnedErr
                      else if ShutdownCancel(c) in run then Waiting else Read)
    && (ShutdownCancel(c) in run ==> saw)
    && (Drained(c) in run || ReturnNil(c) in run || ReturnErr(c) in run ==> ShutdownCancel(c) in run)
  }

  /** Nothing has been done by or for a call. */
  predicate Untouched(run: seq<Action>, c: nat) {
    forall a :: a in run ==> a !in {ShutdownCancel(c), Drained(c), CallerDone(c), ReturnNil(c), ReturnErr(c)}
  }

  // ---- The protocol agrees ----

  ghost predicate StartAgrees(s: State, now: Time, run: seq<Action>) {
    && s.now == Clock(now, run)
    && (s.started <==> StartLock in run)
    && (s.starting <==> Holding(run))
    && (StartUnlock in run ==> StartLock in run)
    && s.jobs == JobsIn(run)
    && |s.runners| == Launched(run)
  }

  ghost predicate CausesAgree(s: State, now: Time, hasHook: bool, run: seq<Action>) {
    && s.parent == ParentCause(run)
    && s.runCtx == RunCause(now, run)
    && (s.runCtx.Some? <==> CancelledIn(run))
    && s.once == OnceIn(now, run)
    && s.hasHook == hasHook
    && s.hookCalls == HookCallsIn(now, hasHook, run)
  }

  ghost predicate CallsAgree(s: State, run: seq<Action>) {
    && |s.calls| == |Saw(run)|
    && (forall c {:trigger s.calls[c]} :: 0 <= c < |s.calls| ==> CallStands(run, c, Saw(run)[c], s.calls[c]))
    && (forall c: nat :: c >= |s.calls| ==> Untouched(run, c))
  }

  ghost predicate RunnersAgree(s: State, now: Time, run: seq<Action>) {
    && AllFollow(s)
    && (forall i {:trigger s.runners[i]} :: 0 <= i < |s.runners| ==>
          Traced(s.jobs[i].schedule, s.runners[i], Trace(now, run, i)))
    && (forall i: nat :: i >= |s.runners| ==> Trace(now, run, i) == [])
  }

  lemma StartAgreesKept(s: State, now: Time, before: seq<Action>, a: Action)
    requires StartAgrees(s, now, before) && Enabled(s, a)
    ensures StartAgrees(Apply(s, a), now, before + [a])
  {
    var run := before + [a];
    assert run[..|before|] == before;
    hide Advance;
  }

  /** What an action does to a call. */
  lemma CallMoves(s: State, a: Action, c: nat)
    requires Enabled(s, a) && c < |s.calls|
    ensures |Apply(s, a).calls| == |s.calls| + if a.ShutdownRead? then 1 else 0
    ensures var call, call' := s.calls[c], Apply(s, a).calls[c];
            && call'.sawStarted == call.sawStarted
            && call'.drained == (call.drained || a == Drained(c))
            && call'.expired == (call.expired || a == CallerDone(c))
            && call'.phase == if a == ShutdownCancel(c) then Waiting
                              else if a == ReturnNil(c) then ReturnedNil
                              else if a == ReturnErr(c) then ReturnedErr else call.phase
  {
    if a.Go? {
      StepKeepsCalls(s, a.runner, a.step);
    }
    hide TakeStep, AddOutcome, Cancel;
  }

  lemma CallStandsKept(s: State, before: seq<Action>, a: Action, c: nat, saw: bool)
    requires Enabled(s, a) && c < |s.calls| && CallStands(before, c, saw, s.calls[c])
    ensures c < |Apply(s, a).calls| && CallStands(before + [a], c, saw, Apply(s, a).calls[c])
  {
    CallMoves(s, a, c);
    assert forall x :: x in before + [a] <==> x in before || x == a;
    assert a == Drained(c) ==> saw;
    hide Apply;
  }

  lemma NewCallStands(s: State, before: seq<Action>)
    requires Enabled(s, ShutdownRead) && Untouched(before, |s.calls|)
    ensures |Apply(s, ShutdownRead).calls| == |s.calls| + 1
    ensures CallStands(before + [ShutdownRead], |s.calls|, s.started, Apply(s, ShutdownRead).calls[|s.calls|])
  {
    assert forall x :: x in before + [ShutdownRead] <==> x in before || x == ShutdownRead;
  }

  lemma CallsGrow(s: State, a: Action)
    requires Enabled(s, a)
    ensures |Apply(s, a).calls| == |s.calls| + if a.ShutdownRead? then 1 else 0
    ensures forall c: nat :: c >= |Apply(s, a).calls| ==> Untouched([a], c)
  {
    if a.Go? {
      StepKeepsCalls(s, a.runner, a.step);
    }
    hide TakeStep, AddOutcome, Cancel;
  }

  lemma CallsAgreeKept(s: State, now: Time, before: seq<Action>, a: Action)
    requires StartAgrees(s, now, before) && CallsAgree(s, before) && Enabled(s, a)
    ensures CallsAgree(Apply(s, a), before + [a])
  {
    hide Apply, Enabled, CallStands;
    var run, t := before + [a], Apply(s, a);
    assert run[..|before|] == before;
    CallsGrow(s, a);
    forall c {:trigger t.calls[c]} | 0 <= c < |t.calls|
      ensures CallStands(run, c, Saw(run)[c], t.calls[c])
    {
      if c < |s.calls| {
        CallStandsKept(s, before, a, c, Saw(before)[c]);
      } else {
        NewCallStands(s, before);
      }
    }
    forall c: nat | c >= |t.calls|
      ensures Untouched(run, c)
    {
      assert Untouched(before, c) && Untouched([a], c) && a in [a];
    }
  }

  lemma StepCausesKept(s: State, now: Time, hasHook: bool, before: seq<Action>, i: nat, step: Step)
    requires i < |s.runners| && StepEnabled(s, i, step) && CausesAgree(s, now, hasHook, before)
    requires step.EnterOnce? || step.CallHook? || step.CancelAll? ==>
               ReturnedBy(now, before, i) == s.runners[i].phase.err
    ensures CausesAgree(TakeStep(s, i, step), now, hasHook, before + [Go(i, step)])
  {
    hide Advance, ReturnedBy;
    assert (before + [Go(i, step)])[..|before|] == before;
  }

  /** What the contexts become, by an action that is no runner's. */
  lemma ContextsMove(s: State, a: Action)
    requires Enabled(s, a) && !a.Go?
    ensures Apply(s, a).parent == if a.CancelParent? && s.parent.None? then Some(a.cause) else s.parent
    ensures Apply(s, a).runCtx == if s.runCtx.Some? then s.runCtx
                                  else if a.Propagate? then s.parent
                                  else if a.ShutdownCancel? then Some(SchedulerClosed) else None
  {
    hide TakeStep, AddOutcome;
  }

  lemma OtherCausesKept(s: State, now: Time, hasHook: bool, before: seq<Action>, a: Action)
    requires Enabled(s, a) && !a.Go? && CausesAgree(s, now, hasHook, before)
    ensures CausesAgree(Apply(s, a), now, hasHook, before + [a])
  {
    hide Apply, ReturnedBy;
    assert (before + [a])[..|before|] == before;
    OthersLeaveRunners(s, a);
    ContextsMove(s, a);
  }

  lemma CausesAgreeKept(s: State, now: Time, hasHook: bool, before: seq<Action>, a: Action)
    requires RunnersAgree(s, now, before) && CausesAgree(s, now, hasHook, before) && Enabled(s, a)
    ensures CausesAgree(Apply(s, a), now, hasHook, before + [a])
  {
    hide CausesAgree, TakeStep;
    if !a.Go? {
      OtherCausesKept(s, now, hasHook, before, a);
    } else {
      if a.step.EnterOnce? || a.step.CallHook? || a.step.CancelAll? {
        ErrorAgrees(s.jobs[a.runner].schedule, Trace(now, before, a.runner), s.runners[a.runner].phase);
      }
      StepCausesKept(s, now, hasHook, before, a.runner, a.step);
    }
  }

  lemma MovedTraced(s: State, now: Time, before: seq<Action>, i: nat, step: Step)
    requires AllFollow(s) && i < |s.runners| && StepEnabled(s, i, step)
    requires Traced(s.jobs[i].schedule, s.runners[i], Trace(now, before, i))
    requires s.now == Clock(now, before) && (s.runCtx.Some? <==> CancelledIn(before))
    ensures Traced(s.jobs[i].schedule, Moved(s, i, step), Trace(now, before + [Go(i, step)], i))
  {
    var schedule, events := s.jobs[i].schedule, Trace(now, before, i);
    assert Follows(schedule, s.runners[i]);
    TraceGrows(now, before, Go(i, step), i);
    hide Trace, Clock, CancelledIn, Follows, Recorded, StandsAt, Advance, StepEnabled;
    AdvanceRecorded(schedule, s.runners[i], events, step, s.now, s.runCtx.Some?);
    AdvanceStands(schedule, s.runners[i], events, step, s.now, s.runCtx.Some?);
  }

  lemma RunnersAgreeKept(s: State, now: Time, hasHook: bool, before: seq<Action>, a: Action)
    requires RunnersAgree(s, now, before) && Enabled(s, a)
    requires StartAgrees(s, now, before) && CausesAgree(s, now, hasHook, before)
    ensures RunnersAgree(Apply(s, a), now, before + [a])
  {
    hide Apply, Advance;
    var run, t := before + [a], Apply(s, a);
    FollowKept(s, a);
    JobsGrow(s, a);
    if a.Go? {
      MovedTraced(s, now, before, a.runner, a.step);
    } else {
      OthersLeaveRunners(s, a);
    }
    hide Apply, Advance, Moved, Traced, Trace, StartAgrees, CausesAgree, AllFollow;
    forall i {:trigger t.runners[i]} | 0 <= i < |t.runners|
      ensures Traced(t.jobs[i].schedule, t.runners[i], Trace(now, run, i))
    {
      TraceGrows(now, before, a, i);
      if i < |s.runners| {
        assert Traced(s.jobs[i].schedule, s.runners[i], Trace(now, before, i));
      } else {
        SpawnedTraced(s);
      }
    }
    forall i: nat | i >= |t.runners|
      ensures Trace(now, run, i) == []
    {
      TraceGrows(now, before, a, i);
    }
  }

  lemma SpawnedTraced(s: State)
    requires |s.runners| < |s.jobs|
    ensures Traced(s.jobs[|s.runners|].schedule, Spawned(s), [])
  {}

  ghost predicate Agrees(s: State, now: Time, hasHook: bool, run: seq<Action>) {
    && StartAgrees(s, now, run) && CausesAgree(s, now, hasHook, run)
    && CallsAgree(s, run) && RunnersAgree(s, now, run)
  }

  /** In every run the scheduler's state is what its history says. The clock and the set of jobs;
      the causes of both contexts, which are the first ones given; the once and the hook's
      calls, each with the very error a body returned; what every `Shutdown` call has seen; and
      for every runner its readings, its runs and where it stands in its loop. */
  lemma {:induction false} StateIsHistory(now: Time, hasHook: bool, run: seq<Action>)
    requires CanRun(New(now, hasHook), run)
    ensures Agrees(AfterRun(New(now, hasHook), run), now, hasHook, run)
    decreases |run|
  {
    if run == [] {
      assert forall i: nat :: Trace(now, run, i) == [];
      assert forall c: nat :: Untouched(run, c);
    } else {
      var before, a := run[..|run| - 1], run[|run| - 1];
      LastAction(New(now, hasHook), run);
      StateIsHistory(now, hasHook, before);
      var s := AfterRun(New(now, hasHook), before);
      StartAgreesKept(s, now, before, a);
      CausesAgreeKept(s, now, hasHook, before, a);
      CallsAgreeKept(s, now, before, a);
      RunnersAgreeKept(s, now, hasHook, before, a);
      assert before + [a] == run;
      hide StartAgrees, CausesAgree, CallsAgree, RunnersAgree, Apply;
    }
  }

  // ---- What can happen next ----

  ghost predicate LeftLoop(schedule: LiveSchedule, events: seq<Event>) {
    events != [] && var step := events[|events| - 1].step;
                    step.TakeCancel? || (step.Ask? && Told(schedule, events).None?)
  }

  /** The control flow of `run`, `invoke` and `triggerFatal`: which step follows which, and on
      what condition. A body that did not fail fatally is followed by the next question. */
  ghost predicate StepPossible(now: Time, run: seq<Action>, schedule: LiveSchedule, i: nat, step: Step) {
    var events := Trace(now, run, i);
    if events == [] then step.Ask?
    else
      var last, next := events[|events| - 1], Told(schedule, events);
      var fatal := last.step.BodyEnds? && Fatally(last.step.outcome);
      match step
      case Ask => (last.step.BodyEnds? && !fatal) || last.step.CancelAll? || last.step.SkipOnce?
      case Arm => last.step.Ask? && next.Some?
      case TakeCancel => last.step.Arm? && CancelledIn(run)
      case TakeTimer => last.step.Arm? && next.Some? && Clock(now, run) >= Due(next.value, last.at)
      case BodyEnds(_) => last.step.TakeTimer?
      case EnterOnce => fatal && OnceIn(now, run).Idle?
      case CallHook => last.step.EnterOnce?
      case CancelAll => last.step.CallHook?
      case SkipOnce => fatal && OnceIn(now, run).Done?
  }

  ghost predicate AllLeft(now: Time, run: seq<Action>) {
    forall i: nat {:trigger Trace(now, run, i)} :: i < Launched(run) && i < |JobsIn(run)| ==>
      LeftLoop(JobsIn(run)[i].schedule, Trace(now, run, i))
  }

  /** What can happen after a run, told from the run. */
  ghost predicate Possible(now: Time, run: seq<Action>, a: Action) {
    match a
    case Tick(t) => t >= Clock(now, run)
    case Add(_, _, _) => !Holding(run)
    case StartLock => !Holding(run)
    case Spawn => Holding(run) && Launched(run) < |JobsIn(run)|
    case StartUnlock => Holding(run) && Launched(run) == |JobsIn(run)|
    case CancelParent(_) => true
    case Propagate => StartLock in run && ParentCause(run).Some?
    case Go(i, step) =>
      i < Launched(run) && i < |JobsIn(run)| && StepPossible(now, run, JobsIn(run)[i].schedule, i, step)
    case ShutdownRead => !Holding(run)
    case ShutdownCancel(c) => c < |Saw(run)| && Saw(run)[c] && ShutdownCancel(c) !in run
    case Drained(c) => c < |Saw(run)| && ShutdownCancel(c) in run && AllLeft(now, run)
    case CallerDone(c) => c < |Saw(run)|
    case ReturnNil(c) => c < |Saw(run)| && Unreturned(run, c) && Drained(c) in run
    case ReturnErr(c) => c < |Saw(run)| && Unreturned(run, c) && ShutdownCancel(c) in run && CallerDone(c) in run
  }

  predicate Unreturned(run: seq<Action>, c: nat) {
    ReturnNil(c) !in run && ReturnErr(c) !in run
  }

  lemma StandsPossibleIff(s: State, now: Time, run: seq<Action>, schedule: LiveSchedule, i: nat, step: Step)
    requires i < |s.runners| && StandsAt(schedule, Trace(now, run, i), s.runners[i].phase)
    requires s.now == Clock(now, run) && (s.runCtx.Some? <==> CancelledIn(run)) && s.once == OnceIn(now, run)
    ensures StepEnabled(s, i, step) <==> StepPossible(now, run, schedule, i, step)
    ensures s.runners[i].phase.Exited? <==> LeftLoop(schedule, Trace(now, run, i))
  {
    hide Trace, Clock, Told, Due, CancelledIn, Fatally, OnceIn, LastReturned;
  }

  lemma StepPossibleIff(s: State, now: Time, hasHook: bool, run: seq<Action>, i: nat, step: Step)
    requires Agrees(s, now, hasHook, run) && i < |s.runners|
    ensures StepEnabled(s, i, step) <==> StepPossible(now, run, s.jobs[i].schedule, i, step)
    ensures s.runners[i].phase.Exited? <==> LeftLoop(s.jobs[i].schedule, Trace(now, run, i))
  {
    assert |s.runners| <= |s.jobs|;
    hide CallsAgree, AllFollow, Recorded, StandsAt, StepEnabled, StepPossible, LeftLoop;
    assert Traced(s.jobs[i].schedule, s.runners[i], Trace(now, run, i));
    StandsPossibleIff(s, now, run, s.jobs[i].schedule, i, step);
  }

  lemma CallPossibleIff(s: State, now: Time, run: seq<Action>, a: Action, c: nat)
    requires CallsAgree(s, run)
    requires a == ShutdownCancel(c) || a == CallerDone(c) || a == ReturnNil(c) || a == ReturnErr(c)
    ensures Enabled(s, a) <==> Possible(now, run, a)
  {
    if c < |s.calls| {
      assert CallStands(run, c, Saw(run)[c], s.calls[c]);
    }
  }

  lemma AllLeftIff(s: State, now: Time, hasHook: bool, run: seq<Action>)
    requires Agrees(s, now, hasHook, run) && Lifecycle(s)
    ensures s.wg == 0 <==> AllLeft(now, run)
  {
    NoneLiveIff(s.runners);
    forall i: nat | i < |s.runners|
      ensures s.runners[i].phase.Exited? <==> LeftLoop(s.jobs[i].schedule, Trace(now, run, i))
    {
      StepPossibleIff(s, now, hasHook, run, i, Ask);
    }
    hide LeftLoop, Trace, CausesAgree, CallsAgree, Follows, Traced;
  }

  lemma DrainedPossibleIff(s: State, now: Time, hasHook: bool, run: seq<Action>, c: nat)
    requires Agrees(s, now, hasHook, run) && Lifecycle(s)
    ensures Enabled(s, Drained(c)) <==> Possible(now, run, Drained(c))
  {
    AllLeftIff(s, now, hasHook, run);
    if c < |s.calls| {
      assert CallStands(run, c, Saw(run)[c], s.calls[c]);
    }
    hide AllLeft, StartAgrees, CausesAgree, RunnersAgree;
  }

  /** Exactly what the history allows can happen next: no step is forced, and none is missing. */
  lemma PossibleIff(now: Time, hasHook: bool, run: seq<Action>, a: Action)
    requires CanRun(New(now, hasHook), run)
    ensures CanRun(New(now, hasHook), run + [a]) <==> Possible(now, run, a)
    ensures Enabled(AfterRun(New(now, hasHook), run), a) <==> Possible(now, run, a)
  {
    var s := AfterRun(New(now, hasHook), run);
    StateIsHistory(now, hasHook, run);
    LifecycleAlways(New(now, hasHook), run);
    RunsCompose(New(now, hasHook), run, [a]);
    assert CanRun(s, [a]) <==> Enabled(s, a);
    hide CanRun, AfterRun, CallsAgree, CausesAgree, RunnersAgree, Lifecycle;
    match a
    case Go(i, step) =>
      if i < |s.runners| {
        StepPossibleIff(s, now, hasHook, run, i, step);
      }
    case ShutdownCancel(c) => CallPossibleIff(s, now, run, a, c);
    case CallerDone(c) => CallPossibleIff(s, now, run, a, c);
    case ReturnNil(c) => CallPossibleIff(s, now, run, a, c);
    case ReturnErr(c) => CallPossibleIff(s, now, run, a, c);
    case Drained(c) => DrainedPossibleIff(s, now, hasHook, run, c);
    case _ =>
  }

  // ---- What follows for the jobs ----

  lemma {:induction false} EventsArePast(now: Time, hasHook: bool, run: seq<Action>, i: nat)
    requires CanRun(New(now, hasHook), run)
    ensures forall k :: 0 <= k < |Trace(now, run, i)| ==>
              && Trace(now, run, i)[k].at <= Clock(now, run)
              && (Trace(now, run, i)[k].cancelled ==> CancelledIn(run))
    decreases |run|
  {
    if run != [] {
      var before, a := run[..|run| - 1], run[|run| - 1];
      LastAction(New(now, hasHook), run);
      EventsArePast(now, hasHook, before, i);
      StateIsHistory(now, hasHook, before);
      assert a.Tick? ==> a.t >= Clock(now, before);
    }
  }

  /** A job stays on its schedule. Whatever its bodies have returned, errors and panics included,
      a runner has left its loop exactly when it took the cancellation at its select, and then
      the jobs' context is cancelled, or its schedule answered its last question with ok=false. */
  lemma RunnerLeavesIff(now: Time, hasHook: bool, run: seq<Action>, i: nat)
    requires CanRun(New(now, hasHook), run)
    requires i < |AfterRun(New(now, hasHook), run).runners| <= |AfterRun(New(now, hasHook), run).jobs|
    ensures var s := AfterRun(New(now, hasHook), run);
            var r, schedule, events := s.runners[i], s.jobs[i].schedule, Trace(now, run, i);
            && (r.phase.Exited? <==>
                  && events != []
                  && var last := events[|events| - 1].step;
                     last.TakeCancel? || (last.Ask? && r.readings != [] && Fire(schedule, r.readings).None?))
            && (r.phase.Exited? ==> s.runCtx.Some? || (r.readings != [] && Fire(schedule, r.readings).None?))
  {
    var s := AfterRun(New(now, hasHook), run);
    StateIsHistory(now, hasHook, run);
    EventsArePast(now, hasHook, run, i);
    assert Traced(s.jobs[i].schedule, s.runners[i], Trace(now, run, i));
    hide CanRun, AfterRun, StartAgrees, CallsAgree, Follows, Fire;
  }

  lemma DueAtInstant(schedule: LiveSchedule, events: seq<Event>, r: Runner, lo: Time, now: Time, hi: Time)
    requires StandsAt(schedule, events, r.phase) && Timed(r, lo, now, hi) && r.phase.Armed?
    requires forall k :: 0 <= k < |events| ==> events[k].at <= now
    ensures now >= r.phase.deadline <==> now >= r.phase.next
  {
    hide Told, Fits, LastReturned, Fatally;
  }

  /** A timer goes off at its instant. While the schedule fits the span, a runner at its select
      can start its body from that instant on, and not before. */
  lemma TimerIsDueIff(now: Time, hasHook: bool, run: seq<Action>, i: nat, hi: Time)
    requires InSpan(now, hasHook, run, i, hi) && Runs(now, hasHook, run).runners[i].phase.Armed?
    ensures var s := Runs(now, hasHook, run);
            Enabled(s, Go(i, TakeTimer)) <==> s.now >= s.runners[i].phase.next
  {
    hide CanRun, AfterRun, CausesAgree, CallsAgree, Follows, Fire, Fits, Told, Recorded, StandsAt, Timed;
    var s := Runs(now, hasHook, run);
    StateIsHistory(now, hasHook, run);
    EventsArePast(now, hasHook, run, i);
    SpanIsTimed(now, hasHook, run, i, hi);
    assert Traced(s.jobs[i].schedule, s.runners[i], Trace(now, run, i));
    hide StartAgrees, RunnersAgree;
    DueAtInstant(s.jobs[i].schedule, Trace(now, run, i), s.runners[i], now, s.now, hi);
  }
}
