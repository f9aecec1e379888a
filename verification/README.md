# Verified model of the scheduler, its wiring and the session lifecycle

The API process of this repository runs background jobs with its own scheduler, stops on an OS
signal or on a fatal job, and keeps login sessions in a table that an hourly job cleans. This
project models those three parts in Dafny and proves what they promise over every run and every
interleaving.

| file | models |
|---|---|
| `GoTime.dfy` | instants, int64 durations, Go's truncating `/`, saturating `Sub`, wrap-around |
| `Schedules.dfy` | the five `Next` implementations as functions; the closed form against the naive search |
| `ScheduleObjects.dfy` | the same schedules as objects that `Next` updates in place |
| `Firing.dfy` | a schedule asked once per clock reading: exhaustion, `Delayed` to any depth, staying in range |
| `SlotAccounting.dfy` | which slots a periodic job fires and skips; rates |
| `JobErrors.dfy` | error chains, `errors.As`, panics, escalation |
| `RunnerLoop.dfy` | the loop `run` over schedule objects |
| `Protocol.dfy` | the scheduler as a step protocol: one action per indivisible piece of code |
| `DrainSafety.dfy`, `FatalHook.dfy`, `DrainProgress.dfy` | lifecycle, fatal hook, what happens after cancellation |
| `JobRuns.dfy`, `JobTheorems.dfy` | the runs of every job in every interleaving |
| `Traces.dfy` | every run of the scheduler told from its actions alone, and the protocol's agreement |
| `SchedulerObject.dfy` | the `Scheduler` type, each method proved to be a run of the protocol |
| `App.dfy`, `ProcessTraces.dfy` | `main` and the HTTP server around the scheduler: causes, signals, deadline, exit codes |
| `Sessions.dfy`, `SessionTheorems.dfy` | the sessions table with detached refreshes; what no run can do to it |
| `SessionTraces.dfy`, `IdleExpiry.dfy` | every run of the table told from its actions alone; exactly when a token verifies |
| `SessionUse.dfy` | that a session in use stays usable |
| `CleanupTransparency.dfy` | that cleanup does not show |
| `SessionObjects.dfy` | the store and the service as objects |
| `Retention.dfy` | scheduler and table under one clock |

`dafny verify dfyconfig.toml` checks the whole project.

## How concurrency is modelled

A state holds every goroutine's position and all shared fields; an action is one indivisible piece
of one goroutine's code (or the environment: time passing, a context ending, a signal). A run is
any sequence of enabled actions, so theorems about `AfterRun(..., run)` for all `run` hold in every
interleaving. `Start` is not one action: it takes the mutex, launches runners one by one while
already launched ones move, and releases it. A `select` with several ready branches may take any of
them. Histories (runs of a job, hook calls, verifications, attempts to cancel) are fields of the
state that nothing reads back; a verification's number names the refresh it starts.

What a run has done is also told without the state: `Traces`, `ProcessTraces` and `SessionTraces`
define the clock, the steps of each goroutine, the causes, the answers and the exit by recursion on
the actions alone, from the control flow of the source. `StateIsHistory` in each proves that the
model's state is what its history says, and `PossibleIff` that exactly what the history allows can
happen next.

Assumptions, each stated where it is used:

- The clock never goes backwards, a timer never fires before its duration has passed, and the wall
  clock that schedules compare advances like the clock that timers use.
- Intervals are positive, as the constructors demand. Delays are any int64; where a strictly later
  fire is claimed the exact condition is proved (`InRange`), and over a span of time it is `Fits`.
- Session tokens are fresh: `rand.Text` never repeats.
- `sync.Mutex`, `sync.Once`, `sync.WaitGroup` and cancel-cause contexts behave as documented.
- The OnFatal hook returns normally, as the one `main` installs does.

## Where code and documentation differ

The model follows the code.

- `Delayed` says its inner schedule anchors itself from the first fire. It is first asked when the
  first run has returned, so it anchors there; `Firing.DelayedPeriodicAnchorsOnFireIff` says exactly
  when the two agree.
- `Next` must answer strictly after `after`. `Schedules.NextIsLaterIff` gives the exact guard: a
  periodic schedule breaks it once the clock is a last multiple of the interval (about 292 years)
  past the anchor, and `Once` and `Delayed` break it for a delay of zero or less.
- "A timer is for its instant" fails for an instant more than 292 years ahead, because
  `next.Sub(now)` saturates: `JobTheorems.ArmedOnTimeIff`.
- A run may start after cancellation. All such runs of a job but one were started by a timer that
  was created after the cancellation and had fired by the time its select was reached
  (`DrainProgress.StragglersAreLateTimers`); while that goes on there is no bound on them
  (`DrainProgress.StragglersWithoutBound`).
- The idle expiry is said to be 30 minutes, refreshed on every `VerifySession` call. Refreshes are
  detached, so it counts from the reading of the clock whose refresh was written last, or from the
  creation; `IdleExpiry.VerifiesIff` and `IdleExpiry.RefusedIff` give the exact condition. A session
  is refused less than 30 minutes after a use when an older refresh is written last
  (`IdleExpiry.OlderRefreshCanWin`) or when none has been written by then, being late or lost
  (`IdleExpiry.UnwrittenRefreshEndsSession`). `SessionUse.RegularUseKeepsSession` says what use is
  enough. A refresh that arrives late enough can also revive an expired row
  (`CleanupTransparency.CleanupCanShow`).

A limit of the promise to drain, which the documentation states: a `Shutdown` before Start returns
nil at once. `DrainSafety.ShutdownPromisesDrainIff` says that such calls are exactly those after
which a job may still run.

## Model

| member | source | states |
|---|---|---|
| Schedules.PeriodicSlotIsSearchIff | api/scheduler/schedule.go:95-99 | the division formula equals stepping anchor+i, anchor+2i, … until past `after`, if and only if `after` is less than one interval before the anchor and short of the last multiple of the interval an int64 holds |
| Schedules.PeriodicAtIsSearchIff | api/scheduler/schedule.go:109-115 | `PeriodicAt` answers the first of first, first+i, … past `after` if and only if the clock is short of that last multiple |
| Schedules.PeriodicSlotIsIntegerSlotIff | api/scheduler/schedule.go:98-99 | with saturating `Sub`, truncating division and wrapping product the slot equals its unbounded-integer meaning exactly under the stated bounds |
| Schedules.OneMoreIntervalIsEnough | api/scheduler/schedule.go:113-114 | after-anchor >= 0 and after-anchor+interval <= 2^63-1 is enough for the machine slot to be the integer slot |
| Schedules.SlotBeforeAnchor | api/scheduler/schedule.go:98-99 | for `after` before the anchor truncation gives a slot at least one interval and less than two intervals later |
| Schedules.SlotWithinRange | api/scheduler/schedule.go:95-99 | in range the slot is later than `after` by at most one interval |
| Schedules.SlotPastRange | api/scheduler/schedule.go:98-99 | past the range every slot is the next multiple less 2^64, which is before the anchor |
| Schedules.PeriodicSlotIsLaterIff | api/scheduler/schedule.go:12-14 | "strictly after" holds of a periodic slot if and only if the clock has not passed the last multiple, for all inputs |
| Schedules.NextIsLaterIff | api/scheduler/schedule.go:12-26 | the interface's contract holds of every schedule, at any nesting, if and only if it is in range |
| ScheduleObjects.ScheduleRef.Next | api/scheduler/schedule.go:26-28 | dispatching `Next` on any nest of schedule objects updates them in place exactly as the schedule function does |
| ScheduleObjects.EverySchedule.constructor | api/scheduler/schedule.go:39-41 | a new `Periodic` has no anchor |
| ScheduleObjects.EverySchedule.Next | api/scheduler/schedule.go:90-100 | the anchor is recorded on the first call and never moves; the answer is the periodic slot |
| ScheduleObjects.OnceSchedule.constructor | api/scheduler/schedule.go:58-60 | a new `Once` has not been asked |
| ScheduleObjects.OnceSchedule.Next | api/scheduler/schedule.go:123-129 | answers the first call only, delay after it |
| ScheduleObjects.OnceAtSchedule.constructor | api/scheduler/schedule.go:65-67 | a new `OnceAt` has not been asked |
| ScheduleObjects.OnceAtSchedule.Next | api/scheduler/schedule.go:137-146 | answers the first call only, and only if the instant is still ahead |
| ScheduleObjects.DelayedSchedule.constructor | api/scheduler/schedule.go:78-80 | a new `Delayed` wraps its inner schedule untouched |
| ScheduleObjects.DelayedSchedule.Next | api/scheduler/schedule.go:155-161 | the first call leaves the inner objects alone; later calls are the inner schedule's |
| Firing.NextSpendsBudget | api/scheduler/schedule.go:123-161 | each ok answer of a one-shot nest uses up one of the answers it has left; ok=false leaves none |
| Firing.AnswersSpendBudget | api/scheduler/schedule.go:123-161 | over any readings the ok answers never exceed what the schedule started with |
| Firing.ExhaustionIsPermanent | api/scheduler/schedule.go:15-18 | ok=false once is ok=false for ever, for every schedule |
| Firing.DelayedHandsOver | api/scheduler/schedule.go:155-161 | a `Delayed` asked n times is its delay once and its inner schedule asked at the other n-1 readings |
| Firing.NestedFire | api/scheduler/schedule.go:155-161 | at any depth the k-th delay counts from the k-th reading, the completion of the run before it, and the base is first asked after all of them |
| Firing.OneShotUnderDelays | api/scheduler/schedule.go:123-129 | what `Once` under n `Delayed`s answers each call: the n delays, then its own delay after the reading, then ok=false for ever |
| Firing.OneInstantUnderDelays | api/scheduler/schedule.go:137-146 | what `OnceAt` under n `Delayed`s answers each call: the n delays, then its instant if that is still ahead, then ok=false for ever |
| Firing.PeriodicFire | api/scheduler/schedule.go:90-100 | every answer of a `Periodic` is a slot anchored at its first reading |
| Firing.DelayedPeriodicAnchorsOnFireIff | api/scheduler/schedule.go:69-77 | the inner schedule anchors at the first fire, as documented, if and only if the first run takes no time |
| Firing.NextWhileFits | api/scheduler/schedule.go:12-26 | a schedule that fits a span answers strictly later at every reading in it, by at most a duration, and goes on fitting |
| SlotAccounting.NextSlotSkipsExactly | api/scheduler/scheduler.go:185-187 | the slots skipped after a fired slot are exactly those in (that slot, the run's completion], and fired slots strictly increase |
| SlotAccounting.NoSkipIff | api/scheduler/scheduler.go:185-187 | a run makes the job skip no slot if and only if it returns before the next one |
| SlotAccounting.SlotsSplit | api/scheduler/schedule.go:34-36 | the slots up to the last completion are exactly the fired and the skipped ones, and no slot is both |
| SlotAccounting.SlotFiresOnce | api/scheduler/schedule.go:34-36 | no slot fires twice |
| SlotAccounting.PeriodicRate | api/scheduler/schedule.go:30-32 | the j-th answer is not before a+j·i; at most (t-a)/i answers are at or before t |
| SlotAccounting.PeriodicAtRate | api/scheduler/schedule.go:43-45 | the j-th answer is not before first+(j-1)·i |
| JobErrors.AsFatalIff | api/scheduler/job.go:32-45 | the search for a `FatalError` finds one if and only if one is in the error, by the error's own shape: itself, what it wraps, or any of what it joins, at any depth |
| JobErrors.EscalatesIff | api/scheduler/scheduler.go:199-223 | a run escalates if and only if it returned an error that is or wraps a `FatalError`, at any depth; a panic never does; the whole returned error is passed on |
| JobErrors.FatalEscalates | api/scheduler/job.go:45-53 | returning `Fatal(err)` escalates, with that very error |
| RunnerLoop.Run | api/scheduler/scheduler.go:166-194 | the loop asks the schedule at Start and once after each run, stops on ok=false or cancellation, starts each body exactly when its timer is due (its instant, at once if that has passed) plus what the timer is late, escalates exactly the fatal errors returned, and its instants do not depend on the outcomes |
| JobRuns.FollowAlways | api/scheduler/scheduler.go:166-194 | in every interleaving each run of a job was due at the schedule's answer to the reading before it |
| JobRuns.ResultsDoNotMoveInstants | api/scheduler/scheduler.go:199-212 | same schedule and same clock readings up to the k-th give the same k-th instant in any two interleavings, whatever the bodies returned |
| JobTheorems.RunsAreSerialized | api/scheduler/scheduler.go:17-19 | for every schedule and interleaving every start of a job, the run in progress included, comes after all its earlier runs returned, and an instant, run or waited for, is after its reading if and only if the schedule was in range |
| JobTheorems.RunsNeverOverlap | api/scheduler/scheduler.go:177-192 | in range, every start, returned or not, is at its instant or later, and every instant, run or waited for, is strictly after all earlier runs returned |
| JobTheorems.ArmedOnTimeIff | api/scheduler/scheduler.go:178 | a timer is due exactly at its instant, cut to a duration from when it is made; it is not due before the instant if and only if that is at most a duration ahead |
| Traces.StateIsHistory | api/scheduler/scheduler.go:116-234 | in every run the state is what the actions say: the clock, the jobs accepted, the causes of both contexts (the first given), the once and the hook's calls with the very errors returned, what each `Shutdown` has seen, and for each runner its readings, its runs and where it stands in its loop |
| Traces.PossibleIff | api/scheduler/scheduler.go:116-234 | after any run exactly those actions are possible that the control flow of the source allows next |
| Traces.RunnerLeavesIff | api/scheduler/scheduler.go:166-212 | whatever its bodies returned, a runner has left its loop if and only if it took the cancellation or its schedule answered ok=false |
| Traces.TimerIsDueIff | api/scheduler/scheduler.go:177-183 | in every run in span a runner at its select can start its body if and only if its instant has come |
| JobTheorems.PeriodicJobIsAccounted | api/scheduler/scheduler.go:183-192 | the instants of a `Periodic` job in any interleaving, the one waited for or running included, are the slots that slot accounting is about |
| JobTheorems.PeriodicStarts | api/scheduler/schedule.go:30-32 | in any interleaving the j-th start of a `Periodic(i)` job, whether or not its run has returned, is not before a+j·i, so at most (t-a)/i runs have started by t |
| JobTheorems.PeriodicAtStarts | api/scheduler/schedule.go:43-45 | in any interleaving the j-th start of a `PeriodicAt(first,i)` job, whether or not its run has returned, is not before first+(j-1)·i |
| JobTheorems.BudgetBoundsRuns | api/scheduler/scheduler.go:171-191 | a job whose schedule has m answers to give starts at most m runs, the one in progress included, in any interleaving, and a runner that has asked more often has left the loop |
| JobTheorems.OneShotJobRuns | api/scheduler/schedule.go:55-67 | so a `Once` or `OnceAt` under n `Delayed`s starts at most n+1 runs and then its runner leaves the loop |
| DrainSafety.LifecycleAlways | api/scheduler/scheduler.go:116-161 | in every run the WaitGroup counts the runners not exited, every `Add` to it comes before `Shutdown` can see `started`, `started` is never reset, and job names stay unique |
| DrainSafety.ShutdownDrains | api/scheduler/scheduler.go:133-161 | if `Shutdown` of a started scheduler returned nil then no body is executing and none starts in any continuation; an error return means the caller's context ended |
| DrainSafety.ShutdownPromisesDrainIff | api/scheduler/scheduler.go:133-161 | in every state a run can reach, a `Shutdown` beginning there promises that no body executes, then or later, once it has returned nil if and only if the scheduler has been started |
| FatalHook.HookCalledOnce | api/scheduler/scheduler.go:225-234 | however many jobs fail fatally the hook is called at most once, with the error of the runner first into the once |
| FatalHook.HookComesFirst | api/scheduler/scheduler.go:227-234 | the hook is called before the fatal cancellation, and every runner leaves `triggerFatal` with the jobs' context cancelled |
| DrainProgress.StragglersAreLateTimers | api/scheduler/scheduler.go:178-184 | in every run the starts of a job with a cancelled context are its last n, n being the number of timers it took that were created after the cancellation, or one more |
| DrainProgress.AtMostOneStraggler | api/scheduler/scheduler.go:178-184 | so a runner that took no such timer starts at most one run after cancellation |
| DrainProgress.StragglersWithoutBound | api/scheduler/scheduler.go:178-184 | from a new scheduler, a job with any inexhaustible schedule can start any number of runs after cancellation |
| DrainProgress.StepsAreBounded | api/scheduler/scheduler.go:166-194 | after cancellation the scheduler takes no more steps than a measure that only a timer created after it can raise, and that by at most one round |
| DrainProgress.SomeStepIsEnabled | api/scheduler/scheduler.go:166-234 | while a runner has not exited, some step that needs no such timer, only bodies and the hook to return, is enabled |
| DrainProgress.DrainCompletes | api/scheduler/scheduler.go:143-156 | so a drain that cannot continue has the WaitGroup at zero and every runner exited |
| SchedulerObject.Scheduler.constructor | api/scheduler/scheduler.go:73-83 | a new scheduler is the protocol's initial state |
| SchedulerObject.Scheduler.Add | api/scheduler/scheduler.go:88-108 | a job is added if and only if Start has not been called and name, schedule and function are given and the name is new; otherwise nothing changes and the first applicable error is returned |
| SchedulerObject.Scheduler.Start | api/scheduler/scheduler.go:116-131 | one runner per job and as many WaitGroup counts, launched under the mutex; a second Start changes nothing |
| SchedulerObject.Scheduler.Await | api/scheduler/scheduler.go:147-160 | whatever others do while it waits: nil only if `done` was closed, the caller's error only if its context ended, either when both hold |
| SchedulerObject.Scheduler.Shutdown | api/scheduler/scheduler.go:136-161 | whatever others do while it waits, the whole call is a run of the protocol that keeps the first cause of the jobs' context, and nil after Start means every runner has exited |
| SchedulerObject.Scheduler.TriggerFatal | api/scheduler/scheduler.go:227-234 | whatever others do meanwhile, the whole call is a run of the protocol, and when it returns the hook, if there is one, has been called exactly once and the jobs' context is cancelled |
| App.FirstCancellationDecides | api/main.go:71-103 | the cause of appCtx is the first attempt to cancel it, and when neither listener nor drain fails main exits with the fatal code if and only if that attempt was a fatal job's |
| App.CauseIsWrittenOnce | api/main.go:71-78 | once set, the cause of appCtx is never replaced |
| App.JobsStopBeforeHttp | api/main.go:92-99 | when HTTP draining begins every runner has exited for good, or the shared deadline has passed |
| App.ShutdownEnds | api/main.go:92-103 | once main is woken and the shared deadline has passed, main takes at most seven more steps in any interleaving, and where it has none to take the process has ended |
| App.MainEndsAlone | api/main.go:92-103 | those steps are always possible, whatever bodies or requests are still running, and end with the code that what woke main and the draining of the server call for |
| App.CancellationEnds | api/main.go:83-103 | wherever appCtx is cancelled and main not yet woken, the process can go on to end with code 0 for a signal and the fatal code for a fatal job |
| ProcessTraces.StateIsHistory | api/main.go:69-103 | in every run main is where its own steps have brought it, with the flag that the first cancellation calls for, and the process has ended as its last action says, or not at all |
| ProcessTraces.PossibleIff | api/main.go:69-103 | after any run exactly those actions are possible that main, the listener and the scheduler allow next |
| ProcessTraces.SignalKillsIff | api/main.go:55-84 | a signal cancels appCtx and ends nothing until main is woken, and kills the process from then on; nothing else kills it |
| ProcessTraces.SignalStopsProcess | api/main.go:71-104 | from anywhere before appCtx is cancelled, a signal can lead to an orderly end with code 0 |
| SessionTheorems.CeilingAndOwner | api/features/auth/repository.go:68-110 | over every run a token's owner and absolute expiry never change, and it never verifies at or after creation+24h nor as anyone else |
| SessionTheorems.NoResurrection | api/db/queries/session_queries.sql.go:123-128 | a deleted token never verifies again whatever refreshes are pending, nor does an expired one with none pending |
| SessionTheorems.DeletionIsDeath | api/db/queries/session_queries.sql.go:47-64 | a row disappears only by its own logout or by cleanup of an expired row, and that is final |
| SessionTheorems.SuccessNeedsRecentUse | api/features/auth/service.go:63-79 | with refreshes reading the clock within d, a verification at t succeeds only if the token was created or verified later than t-30min-d, however refreshes are reordered or lost |
| SessionTraces.StateIsHistory | api/features/auth/repository.go:68-115 | in every run the table is what the actions say: who was issued which token and when, what the clock said when each refresh read it, every row and what both its expiries count from, every refresh still on its way, and every answer |
| SessionTraces.PossibleIff | api/features/auth/service.go:63-108 | after any run exactly those actions are possible that the pending logins and refreshes allow next |
| IdleExpiry.VerifiesIff | docs/features/auth.md:76-88 | over every run a token has its row exactly while neither logged out nor cleaned, the row's idle expiry is 30 minutes after what the clock said when the refresh written last, or the creation, read it, and the token verifies, as its owner, if and only if that reading is less than 30 minutes old and the token less than 24 hours |
| IdleExpiry.RefusedIff | docs/features/auth.md:79 | a token that has verified before, however recently, is refused if and only if it is 24 hours old, or was logged out, or that reading is 30 minutes old, or was more than that when a cleanup came |
| IdleExpiry.OlderRefreshCanWin | api/features/auth/repository.go:103-110 | from an empty table, two verifications any distance apart can have their refreshes written in reverse order: the idle expiry falls by that distance and the session is refused less than 30 minutes after its last use |
| IdleExpiry.UnwrittenRefreshEndsSession | api/features/auth/service.go:71-77 | so it is, from an empty table, when no refresh has been written by then |
| SessionUse.RecentUseSuffices | docs/features/auth.md:79-88 | when the token's refreshes are written within w and none is lost, a token that still has its row and was used at u verifies at every instant after u+w and before u+30min-w, or u+30min when they are also written oldest first, if and only if it is not 24 hours old |
| SessionUse.RegularUseKeepsSession | docs/features/auth.md:78-88 | when a token is asked for at least every g, its refreshes are written within w, none is lost and it is not logged out, and g+2w < 30min, then whatever their order and wherever cleanups come it resolves to its owner at every instant until it is 24 hours old |
| CleanupTransparency.CleanupIsTransparent | api/db/queries/session_queries.sql.go:47-83 | a run with cleanups anywhere answers every verification as the same run without them, if no refresh revives an expired row |
| CleanupTransparency.CleanupShowsIff | api/db/queries/session_queries.sql.go:47-83 | a cleanup before a late write changes the next answer if and only if the write turns an expired row into a live one |
| CleanupTransparency.CleanupCanShow | api/features/auth/repository.go:103-110 | and from an empty table that happens for a refresh written at any instant between the row's old and new idle expiry |
| SessionObjects.SqlSessionStore.CreateSession | api/features/auth/repository.go:68-83 | inserts a row with both expiries from one reading; fails on a token that has one |
| SessionObjects.SqlSessionStore.GetSession | api/db/queries/session_queries.sql.go:72-83 | resolves a token if and only if both expiries are in the future |
| SessionObjects.SqlSessionStore.UpdateIdle | api/db/queries/session_queries.sql.go:123-128 | changes the idle expiry of an existing row and nothing else |
| SessionObjects.SqlSessionStore.DeleteExpiredSessions | api/db/queries/session_queries.sql.go:47-52 | removes exactly the rows with an expiry strictly in the past |
| SessionObjects.Service.Login | api/features/auth/service.go:82-99 | wrong credentials and a failed lookup change nothing; otherwise the token is drawn and inserted, or the failed insert leaves no row |
| SessionObjects.Service.VerifySession | api/features/auth/service.go:63-79 | answers by the table and starts a detached refresh if and only if it succeeds; a database error changes nothing |
| SessionObjects.Service.RefreshReads | api/features/auth/repository.go:103-104 | the goroutine computes an expiry 30 minutes after its own reading of the clock |
| SessionObjects.Service.RefreshWrites | api/features/auth/repository.go:105-109 | and writes it later, to whatever row the token then has |
| SessionObjects.Service.Logout | api/features/auth/service.go:102-108 | deletes the token's row; the empty token is ignored |
| SessionObjects.Service.Cleanup | api/features/auth/repository.go:113-115 | one cleanup is one step of the model and leaves exactly the rows with no expiry in the past |
| Retention.InitModule | api/features/auth/domain.go:71-83 | registers the hourly cleanup, and panics if and only if the scheduler has started or the name is taken |
| Retention.CleanupRunSweeps | api/features/auth/domain.go:74-79 | a run of the cleanup job can execute its DELETE, once, and then exactly the rows with no expiry in the past are left |
| Retention.BoundedRetention | api/features/auth/domain.go:71-79 | while the scheduler is not shut down and no login inserts an already expired row: if every cleanup run succeeds, starts within e of its slot and lasts at most r, then from the first one on no row has an absolute expiry more than 1h+e+2r in the past |

## Left out

- Locations, DST and the planned cron schedule: every built-in schedule ignores its location.
- A hook that panics or blocks, `runtime.Goexit` in a job, and error types with their own `As` method.
- Interference inside one call of a scheduler object other than its waits in `Shutdown` and `triggerFatal`, or inside one call of a service object: the objects show each call as a run of the protocol, and interleavings are covered by the protocol's own theorems.
- Runner steps other than those of `triggerFatal` are not methods of the scheduler object: `RunnerLoop.Run` is the loop on schedule objects, the protocol its interleaving.
- RunnerLoop.Run: the branch that `select` takes, the body's outcome and the clock are inputs, turn by turn; that a job's instants and starts are ordered in time is proved of the protocol, by `JobTheorems.RunsNeverOverlap`.
- SchedulerObject.Scheduler.Await: what the others do while the call waits is an input, and ends with a branch of the select ready; a call that waits for ever is a protocol run without its return. The same holds of `Shutdown`.
- SchedulerObject.Scheduler.TriggerFatal: what the others do meanwhile is an input too; a runner that waits for ever, because the hook of another does not return, is a protocol run without its return.
- App.ShutDownAndExit: whether the server drains is an input of the method; exit codes and the deadline that bounds both waits are proved of the protocol, by `App.FirstCancellationDecides`, `App.JobsStopBeforeHttp` and `App.ShutdownEnds`.
- Retention.BoundedRetention: speaks of the absolute expiry only, because a late refresh may write an idle expiry that is already past; and only while the cleanup job keeps running and no login takes more than 24 hours to insert its row, which would then be past the bound until the next cleanup.
- Setup of database, migrations, logger and configuration, with their exit codes, and the deferred cleanups at the end of `main`.
- HTTP handlers, cookies, middleware, static files and the web client.
- Password hashing, token generation, user registration and lookup: a login gets the result of the credential check and a fresh token as inputs.
- SessionObjects.SqlSessionStore.GetSession: answers the owner's id rather than the joined users row; the users table, and deletion of a user with its sessions, are not modelled.
- How SQLite stores and compares timestamps as text with one-second `datetime('now')`: timestamps compare as instants.
