/** `triggerFatal` in every interleaving: the OnFatal hook is called at most once, with the
    error of the runner that entered the once first, before the scheduler cancels its jobs. */
module FatalHook {
  import opened JobErrors
  import opened Protocol

  ghost predicate InsideOnce(p: Phase) { p.InHook? || p.Hooked? }

  /** The hook calls made once the hook has been called with `err`. */
  function CalledWith(s: State, err: Error): seq<Error> {
    if s.hasHook then [err] else []
  }

  ghost predicate HookInv(s: State) {
    && (forall i {:trigger s.runners[i]} :: 0 <= i < |s.runners| ==>
          var p := s.runners[i].phase;
          && (p.Escalating? ==> AsFatal(p.err).Some?)
          && (InsideOnce(p) ==> s.once == Busy(i, p.err)))
    && match s.once
       case Idle => s.hookCalls == []
       case Busy(i, err) =>
         && AsFatal(err).Some? && i < |s.runners|
         && ((s.runners[i].phase == InHook(err) && s.hookCalls == [])
             || (s.runners[i].phase == Hooked(err) && s.hookCalls == CalledWith(s, err)))
       case Done(err) =>
         AsFatal(err).Some? && s.hookCalls == CalledWith(s, err) && s.runCtx.Some?
  }

  lemma HookKept(s: State, a: Action)
    requires HookInv(s) && Enabled(s, a)
    ensures HookInv(Apply(s, a))
    ensures Apply(s, a).hasHook == s.hasHook
    ensures s.once.Busy? ==> Apply(s, a).once == s.once || Apply(s, a).once == Done(s.once.err)
    ensures s.once.Done? ==> Apply(s, a).once == s.once
  {
    if a.Go? {
      StepKeepsHook(s, a.runner, a.step);
    } else {
      OthersLeaveRunners(s, a);
      hide Apply, AsFatal;
    }
  }

  lemma StepKeepsHook(s: State, i: nat, step: Step)
    requires HookInv(s) && i < |s.runners| && StepEnabled(s, i, step)
    ensures HookInv(TakeStep(s, i, step))
    ensures TakeStep(s, i, step).hasHook == s.hasHook
    ensures s.once.Busy? ==> TakeStep(s, i, step).once == s.once || TakeStep(s, i, step).once == Done(s.once.err)
    ensures s.once.Done? ==> TakeStep(s, i, step).once == s.once
  {
    hide Schedules.Next, AsFatal;
    assert s.runners[i] == s.runners[i];
    if step.BodyEnds? {
      EscalatesOnlyFatal(step.outcome);
    }
  }

  lemma EscalatesOnlyFatal(o: Outcome)
    ensures Escalation(o).Some? ==> AsFatal(Escalation(o).value).Some?
  {}

  lemma {:induction false} HookAlways(s: State, run: seq<Action>)
    requires HookInv(s) && CanRun(s, run)
    ensures HookInv(AfterRun(s, run))
    ensures AfterRun(s, run).hasHook == s.hasHook
    ensures s.once.Busy? ==> AfterRun(s, run).once == s.once || AfterRun(s, run).once == Done(s.once.err)
    ensures s.once.Done? ==> AfterRun(s, run).once == s.once
    decreases |run|
  {
    if run != [] {
      HookKept(s, run[0]);
      HookAlways(Apply(s, run[0]), run[1..]);
    }
  }

  /** However many jobs fail fatally, at whatever moments: the hook is called at most once,
      always with a fatal error; the first runner into the once, at any earlier moment, is the
      one whose error it gets; and when the once is over the call has been made and every
      job's context is cancelled. */
  lemma HookCalledOnce(now: int, hasHook: bool, before: seq<Action>, later: seq<Action>)
    requires CanRun(New(now, hasHook), before)
    requires CanRun(AfterRun(New(now, hasHook), before), later)
    ensures var s := AfterRun(New(now, hasHook), before);
            var t := AfterRun(s, later);
            && |t.hookCalls| <= (if hasHook then 1 else 0)
            && (forall e :: e in t.hookCalls ==> HasFatal(e))
            && (!s.once.Idle? ==> t.hookCalls <= [s.once.err] && !t.once.Idle? && t.once.err == s.once.err)
            && (t.once.Done? ==> t.runCtx.Some? && (hasHook ==> t.hookCalls == [t.once.err]))
  {
    var s := AfterRun(New(now, hasHook), before);
    HookAlways(New(now, hasHook), before);
    HookAlways(s, later);
    var t := AfterRun(s, later);
    if t.hookCalls != [] {
      AsFatalIff(t.hookCalls[0]);
    }
  }

  /** The hook is called while the once is held and before the fatal cancellation; a runner
      that leaves `triggerFatal`, by either way, leaves it with the jobs' context cancelled. */
  lemma HookComesFirst(now: int, hasHook: bool, run: seq<Action>, i: nat, step: Step)
    requires CanRun(New(now, hasHook), run)
    requires Enabled(AfterRun(New(now, hasHook), run), Go(i, step))
    ensures var s := AfterRun(New(now, hasHook), run);
            && (step == CallHook ==> s.once == Busy(i, s.runners[i].phase.err) && s.hookCalls == [])
            && (step == CancelAll && hasHook ==> s.hookCalls == [s.runners[i].phase.err])
            && (step == CancelAll || step == SkipOnce ==> Apply(s, Go(i, step)).runCtx.Some?)
  {
    HookAlways(New(now, hasHook), run);
    var s := AfterRun(New(now, hasHook), run);
    assert s.runners[i] == s.runners[i];
  }
}
