/** The scheduler and the sessions table together, under one clock: the hourly cleanup that
    InitModule registers bounds how long an expired session stays in the table. */
module Retention {
  import opened GoTime
  import opened Wrappers
  import opened Schedules
  import opened Firing
  import opened JobErrors
  import P = Protocol
  import J = JobRuns
  import S = Sessions
  import O = SchedulerObject

  const HOUR: Duration := 3_600_000_000_000
  const CLEANUP_NAME: string := "session-cleanup"

  /** The registration in InitModule, which panics when the scheduler refuses the job. */
  method InitModule(sched: O.Scheduler) returns (panicked: bool)
    requires !sched.starting
    modifies sched`jobs
    ensures panicked <==> sched.started
                          || exists i :: 0 <= i < |old(sched.jobs)| && old(sched.jobs)[i].name == CLEANUP_NAME
    ensures sched.jobs == old(sched.jobs)
                          + if panicked then [] else [P.Job("session-cleanup", Periodic(3_600_000_000_000))]
  {
    var result := sched.Add(CLEANUP_NAME, Some(Periodic(HOUR)), true);
    panicked := result != P.Added;
  }

  /** `job` is the index of the cleanup job, `cleaned` whether its current run has executed the
      DELETE, and `last` when the DELETE was last executed. */
  datatype System = System(sched: P.State, store: S.State, job: nat, cleaned: bool, last: Option<Time>)

  datatype Action =
    | Pass(t: Time)                  // time passes for both
    | Sched(a: P.Action)
    | Store(s: S.Action)
    | Delete                         // the body of the cleanup job executes the DELETE

  predicate Enabled(c: System, a: Action) {
    match a
    case Pass(t) => t >= c.sched.now && t >= c.store.now
    case Sched(x) => !x.Tick? && P.Enabled(c.sched, x)
    case Store(x) => !x.Tick? && !x.Cleanup? && S.Enabled(c.store, x)
    case Delete => c.job < |c.sched.runners| && c.sched.runners[c.job].phase.Running? && !c.cleaned
  }

  function Apply(c: System, a: Action): System
    requires Enabled(c, a)
  {
    match a
    case Pass(t) => c.(sched := P.Apply(c.sched, P.Tick(t)), store := S.Apply(c.store, S.Tick(t)))
    case Sched(x) => c.(sched := P.Apply(c.sched, x), cleaned := c.cleaned && x != P.Go(c.job, P.TakeTimer))
    case Store(x) => c.(store := S.Apply(c.store, x))
    case Delete => c.(store := S.Apply(c.store, S.Cleanup), cleaned := true, last := Some(c.store.now))
  }

  /** In this state no cleanup run is more than `e` late to start or lasts more than `r`, its
      own reading of the clock for the next fire included. */
  predicate OnTime(c: System, e: int, r: int) {
    c.job < |c.sched.runners| ==>
      var runner, now := c.sched.runners[c.job], c.sched.now;
      match runner.phase
      case Ready(next) => now <= next + e
      case Armed(next, _, _) => now <= next + e
      case Running(_, start, _) => now <= start + r
      case Asking => runner.log != [] ==> now <= runner.log[|runner.log| - 1].start + r
      case _ => true
  }

  /** Every cleanup run succeeds, the scheduler is not shut down, and no login takes so long
      that its row is inserted already expired. */
  predicate Succeeds(c: System, a: Action) {
    match a
    case Sched(x) =>
      (x.Go? && x.runner == c.job ==>
         && x.step != P.TakeCancel
         && (x.step.BodyEnds? ==> c.cleaned && x.step.outcome == Returned(None)))
    case Store(x) =>
      (x.Insert? && x.token in c.store.creating ==>
         c.store.creating[x.token].at + S.SESSION_DURATION >= c.store.now)
    case _ => true
  }

  predicate CanRun(c: System, run: seq<Action>, e: int, r: int)
    decreases |run|
  {
    && OnTime(c, e, r)
    && (run != [] ==>
          Enabled(c, run[0]) && Succeeds(c, run[0]) && CanRun(Apply(c, run[0]), run[1..], e, r))
  }

  function AfterRun(c: System, run: seq<Action>, e: int, r: int): System
    requires CanRun(c, run, e, r)
    decreases |run|
  {
    if run == [] then c else AfterRun(Apply(c, run[0]), run[1..], e, r)
  }

  /** While the cleanup job's body executes it can execute the DELETE, once, and then the table
      has no row with an expiry in the past. */
  lemma CleanupRunSweeps(c: System)
    requires c.job < |c.sched.runners| && c.sched.runners[c.job].phase.Running?
    ensures Enabled(c, Delete) <==> !c.cleaned
    ensures !c.cleaned ==>
              var t := Apply(c, Delete);
              && t.sched == c.sched && t.cleaned && t.last == Some(c.store.now)
              && forall token :: token in t.store.sessions <==>
                   token in c.store.sessions && c.store.sessions[token].absoluteExpiry >= c.store.now
                   && c.store.sessions[token].idleExpiry >= c.store.now
  {}

  // ---- The invariant ----

  /** No row has an absolute expiry before the last DELETE. */
  ghost predicate Swept(c: System) {
    && c.sched.now == c.store.now
    && (c.last.Some? ==>
          && c.last.value <= c.store.now
          && forall token :: token in c.store.sessions ==>
               c.store.sessions[token].absoluteExpiry >= c.last.value)
  }

  /** The last DELETE was in the current run, or in the run before it. */
  ghost predicate SweptRecently(c: System, e: int, r: int) {
    && c.job < |c.sched.jobs| && c.sched.jobs[c.job].schedule == Periodic(HOUR)
    && (c.job >= |c.sched.runners| ==> c.last.None?)
    && (c.job < |c.sched.runners| ==>
          var runner := c.sched.runners[c.job];
          && (runner.log != [] ==> c.last.Some?)
          && match runner.phase
             case Ready(next) => c.last.Some? ==> next <= c.last.value + r + HOUR
             case Armed(next, _, _) => c.last.Some? ==> next <= c.last.value + r + HOUR
             case Running(next, start, _) =>
               if c.cleaned then c.last.Some? && start <= c.last.value
               else c.last.Some? ==> start <= c.last.value + r + HOUR + e
             case Asking =>
               if runner.log == [] then c.last.None?
               else c.last.Some? && runner.log[|runner.log| - 1].start <= c.last.value
             case _ => false)
  }

  lemma SweptKept(c: System, a: Action)
    requires Swept(c) && Enabled(c, a) && Succeeds(c, a)
    ensures Swept(Apply(c, a))
  {
    match a
    case Pass(_) =>
    case Sched(x) => SchedulerKeepsTime(c.sched, x); hide P.Apply;
    case Store(x) => StoreKeepsSwept(c.store, x, c.last);
    case Delete =>
  }

  lemma StoreKeepsSwept(s: S.State, a: S.Action, last: Option<Time>)
    requires S.Enabled(s, a) && !a.Tick? && !a.Cleanup?
    requires a.Insert? ==> s.creating[a.token].at + S.SESSION_DURATION >= s.now
    requires last.Some? ==> last.value <= s.now
    requires last.Some? ==> forall token :: token in s.sessions ==> s.sessions[token].absoluteExpiry >= last.value
    ensures S.Apply(s, a).now == s.now
    ensures last.Some? ==> forall token :: token in S.Apply(s, a).sessions ==>
              S.Apply(s, a).sessions[token].absoluteExpiry >= last.value
  {}

  lemma SchedulerKeepsTime(s: P.State, a: P.Action)
    requires P.Enabled(s, a) && !a.Tick?
    ensures P.Apply(s, a).now == s.now
  {}

  /** A cleanup that asks now is told to fire within the hour. */
  lemma WithinTheHour(r: P.Runner, lo: Time, now: Time, hi: Time)
    requires J.Follows(Periodic(HOUR), r) && J.Timed(r, lo, now, hi) && now <= hi
    ensures var fire := Next(r.schedule, now).fire;
            fire.Some? && fire.value <= now + HOUR
  {
    AskedOnceMore(Periodic(HOUR), r.readings, now);
    var asked := r.readings + [now];
    PeriodicFire(HOUR, asked);
    if r.readings != [] {
      PeriodicFire(HOUR, r.readings);
    }
    assert asked[0] == if r.readings == [] then now else r.readings[0];
    SlotWithinRange(asked[0], HOUR, now);
  }

  lemma CleanupStepKept(c: System, step: P.Step, lo: Time, hi: Time, e: int, r: int)
    requires SweptRecently(c, e, r) && Swept(c) && OnTime(c, e, r)
    requires J.AllTimed(c.sched, lo, hi) && Fits(Periodic(HOUR), lo, hi) && c.sched.now <= hi
    requires Enabled(c, Sched(P.Go(c.job, step))) && Succeeds(c, Sched(P.Go(c.job, step)))
    ensures SweptRecently(Apply(c, Sched(P.Go(c.job, step))), e, r)
  {
    var runner := c.sched.runners[c.job];
    assert J.Follows(Periodic(HOUR), runner) && J.Timed(runner, lo, c.sched.now, hi);
    if step.Ask? {
      WithinTheHour(runner, lo, c.sched.now, hi);
    }
    hide Next, J.Follows, J.Timed, J.AllTimed;
    J.JobsGrow(c.sched, P.Go(c.job, step));
  }

  lemma SweptRecentlyKept(c: System, a: Action, lo: Time, hi: Time, e: int, r: int)
    requires SweptRecently(c, e, r) && Swept(c) && OnTime(c, e, r)
    requires J.AllTimed(c.sched, lo, hi) && Fits(Periodic(HOUR), lo, hi) && c.sched.now <= hi
    requires Enabled(c, a) && Succeeds(c, a)
    ensures SweptRecently(Apply(c, a), e, r)
  {
    match a
    case Sched(x) =>
      if x.Go? && x.runner == c.job {
        CleanupStepKept(c, x.step, lo, hi, e, r);
      } else {
        J.JobsGrow(c.sched, x);
        if !x.Go? {
          P.OthersLeaveRunners(c.sched, x);
        }
        hide P.Apply, J.AllTimed;
      }
    case Delete =>
      var runner := c.sched.runners[c.job];
      assert J.Timed(runner, lo, c.sched.now, hi) by {
        assert J.AllTimed(c.sched, lo, hi);
      }
    case _ =>
  }

  lemma {:induction false} RetentionAlways(c: System, run: seq<Action>, lo: Time, hi: Time, e: int, r: int)
    requires SweptRecently(c, e, r) && Swept(c) && J.AllTimed(c.sched, lo, hi) && Fits(Periodic(HOUR), lo, hi)
    requires CanRun(c, run, e, r) && AfterRun(c, run, e, r).sched.now <= hi
    ensures var t := AfterRun(c, run, e, r); SweptRecently(t, e, r) && Swept(t) && OnTime(t, e, r)
    ensures c.sched.now <= AfterRun(c, run, e, r).sched.now
    decreases |run|
  {
    if run != [] {
      var t := Apply(c, run[0]);
      TimePasses(t, run[1..], e, r);
      SweptKept(c, run[0]);
      SweptRecentlyKept(c, run[0], lo, hi, e, r);
      if run[0].Pass? {
        J.TimedKept(c.sched, P.Tick(run[0].t), lo, hi);
      } else if run[0].Sched? {
        SchedulerKeepsTime(c.sched, run[0].a);
        J.TimedKept(c.sched, run[0].a, lo, hi);
      }
      hide Apply, J.AllTimed, SweptRecently, Swept, OnTime, Enabled, Succeeds, Fits;
      RetentionAlways(t, run[1..], lo, hi, e, r);
    }
  }

  lemma {:induction false} TimePasses(c: System, run: seq<Action>, e: int, r: int)
    requires CanRun(c, run, e, r)
    ensures c.sched.now <= AfterRun(c, run, e, r).sched.now
    ensures AfterRun(c, run, e, r).job == c.job
    decreases |run|
  {
    if run != [] {
      if run[0].Sched? {
        SchedulerKeepsTime(c.sched, run[0].a);
      }
      TimePasses(Apply(c, run[0]), run[1..], e, r);
    }
  }

  /** Bounded retention. Whatever table the process starts with, if every cleanup run succeeds,
      starts within e of its slot and lasts at most r, then from the first cleanup on no row
      is in the table whose absolute expiry is more than 1h + e + 2r in the past. */
  lemma BoundedRetention(now: Time, hasHook: bool, setup: seq<P.Action>, store: S.State, job: nat,
                         run: seq<Action>, hi: Time, e: nat, r: nat)
    requires P.CanRun(P.New(now, hasHook), setup)
    requires var sched := P.AfterRun(P.New(now, hasHook), setup);
             && !sched.started && sched.runners == [] && sched.now == store.now
             && job < |sched.jobs| && sched.jobs[job] == P.Job(CLEANUP_NAME, Periodic(HOUR))
    requires var c := System(P.AfterRun(P.New(now, hasHook), setup), store, job, false, None);
             && CanRun(c, run, e, r) && AfterRun(c, run, e, r).sched.now <= hi
    requires hi - now < LastMultiple(HOUR)
    ensures var t := AfterRun(System(P.AfterRun(P.New(now, hasHook), setup), store, job, false, None), run, e, r);
            && (job < |t.sched.runners| && t.sched.runners[job].log != [] ==> t.last.Some?)
            && (t.last.Some? ==> forall token :: token in t.store.sessions ==>
                  t.store.sessions[token].absoluteExpiry >= t.store.now - (HOUR + e + 2 * r))
  {
    var c := System(P.AfterRun(P.New(now, hasHook), setup), store, job, false, None);
    TimePasses(c, run, e, r);
    J.TimedAlways(P.New(now, hasHook), setup, now, hi);
    RetentionAlways(c, run, now, hi, e, r);
  }
}
