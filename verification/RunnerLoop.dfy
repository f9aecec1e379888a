/** The loop of one runner goroutine, `run` in api/scheduler/scheduler.go, over the schedule
    objects. What its `select` and the job body do is decided by the environment, turn by
    turn; the loop is proved to ask the schedule at Start and then once per completed run. */
module RunnerLoop {
  import opened GoTime
  import opened Wrappers
  import opened Schedules
  import opened Firing
  import opened JobErrors
  import opened ScheduleObjects

  /** One arrival at `select`: the context's branch is taken, or the timer's. Then the clock said
      `armed` when the timer was made, the timer fired `late` after its duration had passed,
      the body ran with some outcome, and the clock said `done` once it had returned. */
  datatype Turn = Cancelled | Ran(armed: Time, late: nat, outcome: Outcome, done: Time)

  /** When the body starts whose timer is made for `next`: a timer with a negative duration
      fires at once. */
  function StartOf(turn: Turn, next: Time): (start: Time)
    requires turn.Ran?
    ensures start == turn.late + if next - turn.armed > MAX_DURATION then turn.armed + MAX_DURATION
                                 else if next > turn.armed then next else turn.armed
  {
    var wait := Sub(next, turn.armed);
    turn.armed + (if wait > 0 then wait else 0) + turn.late
  }

  /** Each body started when its timer was due, at its instant or at once if that had passed, plus
      what the timer was late; an instant more than a duration ahead is cut to one. */
  ghost predicate StartedOnTime(turns: seq<Turn>, slots: seq<Time>, starts: seq<Time>) {
    && |starts| <= |slots| && |starts| <= |turns|
    && forall k :: 0 <= k < |starts| ==>
         && turns[k].Ran?
         && var armed := turns[k].armed;
            starts[k] == turns[k].late + if slots[k] - armed > MAX_DURATION then armed + MAX_DURATION
                                         else if slots[k] > armed then slots[k] else armed
  }

  lemma OneMoreStart(turns: seq<Turn>, slots: seq<Time>, starts: seq<Time>)
    requires StartedOnTime(turns, slots, starts) && |starts| < |slots| && |starts| < |turns|
    requires turns[|starts|].Ran?
    ensures StartedOnTime(turns, slots, starts + [StartOf(turns[|starts|], slots[|starts|])])
  {}

  lemma OneMoreSlot(turns: seq<Turn>, slots: seq<Time>, starts: seq<Time>, next: Time)
    requires StartedOnTime(turns, slots, starts)
    ensures StartedOnTime(turns, slots + [next], starts)
  {}

  /** How the runner left its loop; Waiting when the turns ran out at its `select`. */
  datatype Exit = Exhausted | Stopped | Waiting

  /** The errors given to `triggerFatal` by these turns, in order: those returned, not panicked
      with, that wrap a `FatalError`. */
  ghost function Escalations(turns: seq<Turn>): seq<Error> {
    if turns == [] then []
    else
      var last := turns[|turns| - 1];
      Escalations(turns[..|turns| - 1])
      + if last.Ran? && last.outcome.Returned? && last.outcome.err.Some? && HasFatal(last.outcome.err.value)
        then [last.outcome.err.value] else []
  }

  /** Every instant in `slots` is the schedule's answer to the reading at the same place. */
  ghost predicate Scheduled(s: Schedule, readings: seq<Time>, slots: seq<Time>)
    requires Schedules.Valid(s)
  {
    && |slots| <= |readings|
    && forall k {:trigger slots[k]} :: 0 <= k < |slots| ==> Fire(s, readings[..k + 1]) == Some(slots[k])
  }

  /** The readings are the Start reading and the completions of the first turns. */
  ghost predicate ReadAfterEach(start: Time, turns: seq<Turn>, readings: seq<Time>) {
    && 1 <= |readings| <= |turns| + 1 && readings[0] == start
    && forall k :: 0 <= k < |readings| - 1 ==> turns[k].Ran? && turns[k].done == readings[k + 1]
  }

  /** Everything the loop has done by its |readings|-th question to the schedule. */
  ghost predicate Driven(s: Schedule, start: Time, turns: seq<Turn>, readings: seq<Time>, slots: seq<Time>,
                         fatals: seq<Error>)
    requires Schedules.Valid(s)
  {
    && ReadAfterEach(start, turns, readings)
    && Scheduled(s, readings, slots)
    && fatals == Escalations(turns[..|readings| - 1])
  }

  lemma AsksAtStart(s: Schedule, start: Time, turns: seq<Turn>)
    requires Schedules.Valid(s)
    ensures var a := Next(s, start);
            && After(s, [start]) == a.schedule && Fire(s, [start]) == a.fire
            && Driven(s, start, turns, [start], [], [])
            && (a.fire.Some? ==> Driven(s, start, turns, [start], [a.fire.value], []))
  {
    assert [start][..0] == [] && [start][..1] == [start];
  }

  /** One more run returns at `done`, and the schedule is asked once more. */
  lemma AsksAgain(s: Schedule, start: Time, turns: seq<Turn>, readings: seq<Time>, slots: seq<Time>,
                  fatals: seq<Error>)
    requires Schedules.Valid(s) && Driven(s, start, turns, readings, slots, fatals)
    requires |slots| == |readings| <= |turns| && turns[|readings| - 1].Ran?
    ensures var turn := turns[|readings| - 1];
            var a, more := Next(After(s, readings), turn.done), readings + [turn.done];
            var fatals' := fatals + if Escalation(turn.outcome).Some? then [Escalation(turn.outcome).value] else [];
            && After(s, more) == a.schedule && Fire(s, more) == a.fire
            && Driven(s, start, turns, more, slots, fatals')
            && (a.fire.Some? ==> Driven(s, start, turns, more, slots + [a.fire.value], fatals'))
  {
    ReadOnceMore(start, turns, readings);
    EscalateOnceMore(turns, |readings| - 1);
    ScheduledOnceMore(s, readings, slots, turns[|readings| - 1].done);
    hide After, Fire, Next, Schedules.Valid, Scheduled, ReadAfterEach, Escalation, Escalations;
  }

  lemma ReadOnceMore(start: Time, turns: seq<Turn>, readings: seq<Time>)
    requires ReadAfterEach(start, turns, readings) && |readings| <= |turns| && turns[|readings| - 1].Ran?
    ensures ReadAfterEach(start, turns, readings + [turns[|readings| - 1].done])
  {}

  lemma EscalateOnceMore(turns: seq<Turn>, i: nat)
    requires i < |turns| && turns[i].Ran?
    ensures Escalations(turns[..i + 1]) == Escalations(turns[..i])
         + if Escalation(turns[i].outcome).Some? then [Escalation(turns[i].outcome).value] else []
  {
    assert turns[..i + 1][..i] == turns[..i];
    EscalatesIff(turns[i].outcome);
  }

  lemma ScheduledOnceMore(s: Schedule, readings: seq<Time>, slots: seq<Time>, done: Time)
    requires Schedules.Valid(s) && Scheduled(s, readings, slots) && |slots| == |readings|
    ensures var a := Next(After(s, readings), done);
            Scheduled(s, readings + [done], slots)
            && After(s, readings + [done]) == a.schedule
            && Fire(s, readings + [done]) == a.fire
            && (a.fire.Some? ==> Scheduled(s, readings + [done], slots + [a.fire.value]))
  {
    hide After, Fire, Next, Schedules.Valid;
    AskedOnceMore(s, readings, done);
    var all := readings + [done];
    assert all[..|readings|] == readings && all[..|readings| + 1] == all;
    forall k {:trigger slots[k]} | 0 <= k < |slots|
      ensures Fire(s, all[..k + 1]) == Some(slots[k])
    {
      assert all[..k + 1] == readings[..k + 1];
    }
  }

  /** `slots` are the instants the runner was told to fire at, `starts` when its bodies started,
      `readings` the clock readings it passed to `Next`. The outcomes of the runs decide only
      `fatals`. */
  method Run(sched: ScheduleRef, start: Time, turns: seq<Turn>)
    returns (slots: seq<Time>, starts: seq<Time>, readings: seq<Time>, fatals: seq<Error>, exit: Exit)
    requires sched.Valid()
    modifies sched.Footprint()
    ensures Driven(old(sched.Value()), start, turns, readings, slots, fatals)
    ensures readings != [] && |slots| == if exit == Exhausted then |readings| - 1 else |readings|
    ensures |starts| == |readings| - 1
    ensures StartedOnTime(turns, slots, starts)
    ensures sched.Value() == After(old(sched.Value()), readings)
    ensures match exit
            case Exhausted => Fire(old(sched.Value()), readings).None?
            case Stopped => |readings| <= |turns| && turns[|readings| - 1] == Cancelled
            case Waiting => |readings| == |turns| + 1
  {
    ghost var s := sched.Value();
    assert StartedOnTime(turns, [], []);
    hide After, Fire, Next, Schedules.Valid, Driven, Escalation, StartOf, StartedOnTime;
    readings, slots, starts, fatals := [start], [], [], [];
    AsksAtStart(s, start, turns);
    var next, ok := sched.Next(start);
    if !ok {
      return slots, starts, readings, fatals, Exhausted;
    }
    OneMoreSlot(turns, slots, starts, next);
    slots := slots + [next];
    for i := 0 to |turns|
      invariant |readings| == i + 1 == |slots| && slots[i] == next
      invariant Driven(s, start, turns, readings, slots, fatals)
      invariant |starts| == i
      invariant StartedOnTime(turns, slots, starts)
      invariant sched.Value() == After(s, readings)
    {
      if turns[i].Cancelled? {
        return slots, starts, readings, fatals, Stopped;
      }
      OneMoreStart(turns, slots, starts);
      starts := starts + [StartOf(turns[i], next)];
      AsksAgain(s, start, turns, readings, slots, fatals);
      var escalated := Escalation(turns[i].outcome);
      fatals := fatals + if escalated.Some? then [escalated.value] else [];
      next, ok := sched.Next(turns[i].done);
      readings := readings + [turns[i].done];
      if !ok {
        return slots, starts, readings, fatals, Exhausted;
      }
      OneMoreSlot(turns, slots, starts, next);
      slots := slots + [next];
    }
    exit := Waiting;
  }
}
