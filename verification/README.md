# Flowfile: a verified model of its scheduling, reading and compiling code

This project models the parts of Flowfile whose correctness depends on interleavings,
crashes or text, and proves what they promise.

**The scheduler** (`Scheduler*.dfy`). Any number of `FlowScheduler` instances share one
database. `SchedulerModel` is a labelled transition system: the lock row, schedules, runs,
tables, a clock, a calendar whose local time may jump back, and each instance with its
uncommitted session writes. `SchedulerLease`, `SchedulerRuns`, `SchedulerCron`,
`SchedulerBounds` and `SchedulerGaps` prove safety over whole runs of that system, and the
exact conditions of its known gaps; `SchedulerDue` says exactly when a schedule is launched,
in terms of its row and the clock alone, and what a launch leaves behind. `SchedulerTick` is
the tick in the form of the code, classes and loops, and proves that every tick is a run of the system, whatever time,
tables, children and other instances do between its lines. Instants are microseconds.

Exclusion rests on three hypotheses: a tick ends within the stale threshold of its own
acquire (`TakeoverSafeIff`), the lock is released between ticks
(`StopDuringTickBreaksExclusion`), and a lock row that an instance updates or deletes is
still the row it read (`WriteLockSafeIff`, `SharedReadRace`, `OwnRowRace`,
`ReleaseSafeIff`, `ReleaseRace`). An instance that finds no row or gives up may be
overtaken freely. The doc comment of the cron processor promises one
fire per slot; the code keeps this except for a crash between its two commits on a schedule
that already had a cursor (`CrashRepeatsTheSlotIff`).

**The hedged read** (`HedgedRead.dfy`). The polling loop of `read_sql_with_fallback` against
attempts that may settle between any two lines. What it returns or raises is stated in
terms of what the attempts did, and exactly when its loop ends, by explicit budgets of
rounds.

**The expression compiler.** `PolarsCode` (with the parser of `PythonSyntax`, after section
6.17 of the Python Language Reference) says what Python reads from every generated Polars
text and exactly which expressions survive. `FormulaSyntax` and `FormulaCompiler` do the
same for the formula texts, character by character, down to their value on every row, and
`FormulaMeaning` says what each operator computes and how it is written.
`WithColumns` compares the formula chain with Polars' simultaneous evaluation (a repeated
output name is an error there and silently overwritten here), and `Concat`
follows a frame list through deduplication, naming, wiring and binding. The code comment in
`concat` calls `add_connection` idempotent; `add_node_connection` appends, and the frames
are deduplicated by the loops themselves. Connections are made without the frame's output
handle, so frames on a second output are read from the first one: `KeepsDataIff`.

**Storage.** `DeltaMerge` and `DeltaCells` (writing and merging tables, cell by
cell), `VirtualTableCache` (crash-safe cache files), `ArtifactStore` (staged uploads), and
`TopoSort` (the order of stub classes).

`Text` and `Wrappers` hold shared helpers. `dafny verify dfyconfig.toml` checks everything.

## Model

| member | source | states |
|---|---|---|
| `SchedulerLease.LeaseStep` | flowfile_scheduler/flowfile_scheduler/engine.py:122-161 | any single step of any instance keeps the lease invariant: whoever is inside a tick owns the lock row, stamped with the start of that tick |
| `SchedulerLease.LeaseExclusion` | flowfile_scheduler/flowfile_scheduler/engine.py:105-161 | over every interleaving of any number of instances, at most one is inside a tick, provided ticks end within the threshold, release happens between ticks, and a row that an instance updates or deletes is still the row it read |
| `SchedulerLease.LeaseExclusionFromInit` | flowfile_scheduler/flowfile_scheduler/engine.py:105-161 | the same from any initial state |
| `SchedulerLease.TakeoverSafeIff` | flowfile_scheduler/flowfile_scheduler/engine.py:141-151 | a takeover attempt during another tick keeps exclusion if and only if that tick began at most 90 s before the attempt |
| `SchedulerLease.StopDuringTickBreaksExclusion` | flowfile_scheduler/flowfile_scheduler/engine.py:83-92 | stop() in the middle of a tick releases the lock while the tick thread goes on: any idle instance then enters beside it |
| `SchedulerLease.WriteLockSafeIff` | flowfile_scheduler/flowfile_scheduler/engine.py:127-151 | while one instance is inside, another that read any row before writes safely if and only if it found none or a fresh row of someone else |
| `SchedulerLease.SharedReadRace` | flowfile_scheduler/flowfile_scheduler/engine.py:127-151 | two instances that read the same row, whoever holds it, both enter if and only if the row is stale |
| `SchedulerLease.OwnRowRace` | flowfile_scheduler/flowfile_scheduler/engine.py:136-139 | an instance that slept past the threshold refreshes its own row after another took it over, and enters beside it |
| `SchedulerLease.ReleaseSafeIff` | flowfile_scheduler/flowfile_scheduler/engine.py:153-161 | while an instance is inside, any release keeps the lease if and only if the row it read before is not the releaser's own: the delete does not look again |
| `SchedulerLease.ReleaseRace` | flowfile_scheduler/flowfile_scheduler/engine.py:153-161 | a release that reads its own row, is overtaken, and deletes the other's row lets a third instance in; exclusion breaks if and only if the row was stale |
| `SchedulerLease.EmptyRowRace` | flowfile_scheduler/flowfile_scheduler/engine.py:130-134 | two instances that find no row do not both enter: the primary key rejects the second insert; such a start meets the hypotheses of every result on runs |
| `SchedulerLease.TwoInsideLaunchTwice` | flowfile_scheduler/flowfile_scheduler/engine.py:404-426 | two instances inside that pass the check for one schedule leave two active runs of its flow |
| `SchedulerRuns.ActiveStep` | flowfile_scheduler/flowfile_scheduler/engine.py:393-448 | each step keeps "one active run per registration", and a passed active-run check stays true until the insert |
| `SchedulerRuns.OneActiveRunPerFlow` | flowfile_scheduler/flowfile_scheduler/engine.py:393-448 | over every disciplined run, with failed spawns, crashes, takeovers and completions anywhere, a registration never has two runs without ended_at |
| `SchedulerRuns.EvaluateJustifies` | flowfile_scheduler/flowfile_scheduler/engine.py:174-388 | a schedule that passes its check carries evidence its rows account for: the interval passed, the stamp is new, every linked table was updated after the last run |
| `SchedulerRuns.HistoryStep` | flowfile_scheduler/flowfile_scheduler/engine.py:165-448 | every step keeps: rows are sane, each scheduled run is explained by recorded evidence, and follows every earlier run of its schedule on new grounds |
| `SchedulerRuns.RunsFollow` | flowfile_scheduler/flowfile_scheduler/engine.py:165-448 | the same over whole runs: consecutive runs of a schedule are an interval apart, use increasing table stamps, or each come after a new update of every linked table |
| `SchedulerRuns.LastSeenNeverAhead` | flowfile_scheduler/flowfile_scheduler/engine.py:320-340 | the committed last_trigger_table_updated_at never exceeds the table's updated_at |
| `SchedulerCron.CronDueIff` | flowfile_scheduler/flowfile_scheduler/engine.py:231-261 | a cron schedule is due exactly when a slot lies after its base and not after the local clock, however many were missed |
| `SchedulerCron.CatchUpFiresOnce` | flowfile_scheduler/flowfile_scheduler/engine.py:204-207 | after one fire the schedule is due again only once a further slot has passed on the local clock: one catch-up, no backfill |
| `SchedulerCron.EvaluateHolds` | flowfile_scheduler/flowfile_scheduler/engine.py:231-261 | a slot found due is beyond the cursor of every earlier successful fire |
| `SchedulerCron.CronStep` | flowfile_scheduler/flowfile_scheduler/engine.py:193-273 | every step, but for a crash that leaves an older cursor standing after the run is committed, keeps the cron invariant, whatever the local clock does |
| `SchedulerCron.CronSlotsIncrease` | flowfile_scheduler/flowfile_scheduler/engine.py:193-273 | over whole runs, with the local clock jumping back at will, successful fires of a schedule use strictly increasing slots |
| `SchedulerCron.CommittedRunDueAgainIff` | flowfile_scheduler/flowfile_scheduler/engine.py:236-269 | once the run is committed and the cursor is not, the same slot is due again if and only if the schedule had a cursor and the local clock is not before the slot |
| `SchedulerCron.CrashRepeatsTheSlotIff` | flowfile_scheduler/flowfile_scheduler/engine.py:265-269 | evaluate, insert, spawn, crash: the slot is repeated under exactly that condition |
| `SchedulerCron.FailedSpawnRetriedIff` | flowfile_scheduler/flowfile_scheduler/engine.py:438-447 | a launch whose spawn fails is retried for its slot under exactly that condition; without a cursor the slot is lost |
| `SchedulerBounds.IntervalRunsBounded` | flowfile_scheduler/flowfile_scheduler/engine.py:173-189 | a window of T microseconds holds at most T / interval + 1 runs of an interval schedule, failed launches included |
| `SchedulerBounds.TableRunsBounded` | flowfile_scheduler/flowfile_scheduler/engine.py:311-340 | a table trigger has at most as many runs as the table had distinct update stamps |
| `SchedulerBounds.SetRunsBounded` | flowfile_scheduler/flowfile_scheduler/engine.py:353-389 | a table-set trigger has at most as many runs as any one of its linked tables had distinct update stamps |
| `SchedulerBounds.CronFiresBounded` | flowfile_scheduler/flowfile_scheduler/engine.py:231-272 | successful cron fires never exceed the slots between the first base and the last cursor |
| `SchedulerBounds.CountIsCardinality` | flowfile_scheduler/flowfile_scheduler/engine.py:424-426 | the count these bounds speak of is the number of rows picked |
| `SchedulerDue.IntervalLaunchedIff` | flowfile_scheduler/flowfile_scheduler/engine.py:173-188 | an enabled interval schedule of a startable flow passes its check if and only if it has an interval and never ran, or ran at least that interval ago |
| `SchedulerDue.ProcessorUsesWallClock` | flowfile_scheduler/flowfile_scheduler/engine.py:172-188 | the instant an interval is measured at is the wall clock when the processor starts, and it is the start of the run |
| `SchedulerDue.TableLaunchedIff` | flowfile_scheduler/flowfile_scheduler/engine.py:311-339 | a table trigger passes its check, for the latest update of its table, if and only if its flow can start and it has seen none or an older one; a due update counts as seen for the session even if the flow cannot start |
| `SchedulerDue.SetLaunchedIff` | flowfile_scheduler/flowfile_scheduler/engine.py:353-388 | a set of at least two tables passes its check if and only if its flow can start and each table was updated, after the last run if there was one |
| `SchedulerDue.CronLaunchedIff` | flowfile_scheduler/flowfile_scheduler/engine.py:218-263 | a cron schedule passes its check if and only if its flow can start and a slot lies after its cursor, or else its last run, or else its creation, and not after the local clock |
| `SchedulerDue.LockTakenIff` | flowfile_scheduler/flowfile_scheduler/engine.py:122-151 | undisturbed, the lock is taken if and only if there is no row, the row is its own, or the heartbeat is more than 90 seconds old; the row is its own and fresh afterwards, and otherwise unchanged |
| `SchedulerDue.LaunchLeavesRun` | flowfile_scheduler/flowfile_scheduler/engine.py:413-448 | a launch leaves one run of the flow, started when it was evaluated, running with its process or ended as a failure at once; the schedule has run, noted stamps are saved, and nothing else changes |
| `SchedulerDue.FailedLaunchFreesFlow` | flowfile_scheduler/flowfile_scheduler/engine.py:438-447 | a launch that cannot spawn does not block its flow |
| `SchedulerDue.CronFireSavesCursor` | flowfile_scheduler/flowfile_scheduler/engine.py:265-271 | a spawned cron fire leaves the local time of the fire as the cursor |
| `SchedulerDue.CompletionEndsRun` | shared/run_completion.py:53-70 | completing a run ends that run and no other, and the flow can start again exactly when no other run of it is unfinished |
| `SchedulerDue.QuietTurnLaunches` | flowfile_scheduler/flowfile_scheduler/engine.py:404-448 | an undisturbed turn launches the schedule exactly when it passed its check, saves the cursor of a spawned cron fire, and does nothing else |
| `SchedulerDue.TickEvaluatesEnabled` | flowfile_scheduler/flowfile_scheduler/engine.py:105-118 | a tick that takes the lock evaluates every enabled schedule of every kind, and no other |
| `SchedulerDue.LaunchesAreProcesses` | flowfile_scheduler/flowfile_scheduler/engine.py:115-118 | what a tick counts as launched are the runs that have a process |
| `SchedulerDue.ForeignActionsHappen` | flowfile_scheduler/flowfile_scheduler/engine.py:105-118 | whatever foreign actions are given between two lines all happen |
| `SchedulerTick.Database.Yield` | shared/run_completion.py:53-70 | the rest of the world acting between two lines: time passes, a table is updated, a run is completed, other instances act as far as they can, and the lock may be released |
| `SchedulerTick.OthersOnlyReachTheLock` | flowfile_scheduler/flowfile_scheduler/engine.py:105-118 | while an instance holds the lease, whatever another tries beyond the lock has no effect: the actions between the lines of a tick leave nothing out |
| `SchedulerTick.FlowScheduler.AcquireLock` | flowfile_scheduler/flowfile_scheduler/engine.py:122-151 | reading, then writing the lock row is exactly the two lock steps of the system, with any actions of others in between |
| `SchedulerTick.FlowScheduler.ReleaseLock` | flowfile_scheduler/flowfile_scheduler/engine.py:153-161 | reading and deleting are two steps, with any actions of others in between; the row there is goes if the one read was its own |
| `SchedulerTick.FlowScheduler.HasActiveRun` | flowfile_scheduler/flowfile_scheduler/engine.py:393-397 | answers true exactly when some run of the registration has no end |
| `SchedulerTick.FlowScheduler.InsertRun` | flowfile_scheduler/flowfile_scheduler/engine.py:413-427 | the run row is committed together with every pending write of the session |
| `SchedulerTick.FlowScheduler.SpawnFlow` | flowfile_scheduler/flowfile_scheduler/engine.py:438-448 | a spawned run gets its pid, a failed one is ended as failed; spawned runs grow by one exactly on success |
| `SchedulerTick.FlowScheduler.MaybeLaunch` | flowfile_scheduler/flowfile_scheduler/engine.py:399-448 | nothing changes without a registration or with an active run; otherwise the launch is exactly insert and spawn, and the answer tells whether a run was spawned |
| `SchedulerTick.FlowScheduler.EvaluateInterval` | flowfile_scheduler/flowfile_scheduler/engine.py:175-188 | one interval schedule is evaluated as one turn of the system, counted as launched exactly when a run was spawned |
| `SchedulerTick.FlowScheduler.CronSlot` | flowfile_scheduler/flowfile_scheduler/engine.py:219-261 | computes the due slot, or nothing for a missing expression, a bad zone, no base, a bad expression or a future slot |
| `SchedulerTick.FlowScheduler.EvaluateCron` | flowfile_scheduler/flowfile_scheduler/engine.py:218-272 | one cron schedule is one turn; the cursor is committed after, and only after, a successful launch |
| `SchedulerTick.FlowScheduler.EvaluateTableTrigger` | flowfile_scheduler/flowfile_scheduler/engine.py:311-339 | one table trigger is one turn; the new stamp is pending before the active-run check |
| `SchedulerTick.FlowScheduler.AllUpdated` | flowfile_scheduler/flowfile_scheduler/engine.py:364-378 | true exactly when every linked table has an update after the last run |
| `SchedulerTick.FlowScheduler.EvaluateTableSet` | flowfile_scheduler/flowfile_scheduler/engine.py:353-388 | one table-set trigger is one turn |
| `SchedulerTick.FlowScheduler.ProcessSchedules` | flowfile_scheduler/flowfile_scheduler/engine.py:165-189 | a processor evaluates the enabled schedules of its kind in row order, and its count is the number of runs it spawned |
| `SchedulerTick.FlowScheduler.RunProcessors` | flowfile_scheduler/flowfile_scheduler/engine.py:111-114 | the body of a tick is the four processors in order, and its count the sum of theirs |
| `SchedulerTick.FlowScheduler.Tick` | flowfile_scheduler/flowfile_scheduler/engine.py:105-118 | a tick, with whatever others do between its lines, is exactly a run of the system, and `launched` is the number of runs spawned since the lock was taken |
| `SchedulerTick.FlowScheduler.RunOnce` | flowfile_scheduler/flowfile_scheduler/engine.py:72-81 | a single tick ends before its lock is read for release and deleted |
| `SchedulerGaps.OpsAreActions` | flowfile_scheduler/flowfile_scheduler/engine.py:105-118 | what an instance does by itself is what it does as part of the system |
| `SchedulerGaps.PendingCursorCommittedIff` | flowfile_scheduler/flowfile_scheduler/engine.py:337-338 | a stamp noted in the session is persisted if and only if a later launch of the same tick commits |
| `SchedulerGaps.MissedUpdateRetriedIff` | flowfile_scheduler/flowfile_scheduler/engine.py:327-339 | an update noticed while its flow is running or unregistered is retried next tick if and only if nothing later in the tick commits or the table is updated again |
| `SchedulerGaps.LaterLaunchLosesUpdate` | flowfile_scheduler/flowfile_scheduler/engine.py:337-426 | the losing trace: whenever a second schedule passes its check after a missed update, its commit persists the stamp and the update is not due again |
| `SchedulerGaps.TableSpawnFailureRetriedIff` | flowfile_scheduler/flowfile_scheduler/engine.py:337-447 | a table trigger whose process cannot be spawned is due again if and only if the table is updated once more: the run's commit took the stamp |
| `SchedulerGaps.SetSpawnFailureRetriedIff` | flowfile_scheduler/flowfile_scheduler/engine.py:380-447 | a table set whose process cannot be spawned is due again if and only if every linked table is updated once more |
| `SchedulerGaps.IntervalSpawnFailureRetriedIff` | flowfile_scheduler/flowfile_scheduler/engine.py:187-447 | an interval schedule whose process cannot be spawned waits for another full interval |
| `SchedulerGaps.CrashOrphans` | flowfile_scheduler/flowfile_scheduler/engine.py:424-438 | a crash between committing the run and spawning it leaves an unfinished run nobody will spawn |
| `SchedulerGaps.OrphanBlocksItsFlow` | flowfile_scheduler/flowfile_scheduler/engine.py:393-411 | until someone else ends that run, no schedule ever launches its flow again |
| `SchedulerGaps.TickLeavesOneActiveRun` | flowfile_scheduler/flowfile_scheduler/engine.py:105-118 | a tick as the code runs it, with whatever others do between its lines, leaves at most one instance inside and one active run per registration, if the whole is disciplined |
| `SchedulerGaps.QuietTickIsDisciplined` | flowfile_scheduler/flowfile_scheduler/engine.py:105-118 | when no other instance acts during a tick, it is disciplined as soon as its own lease does not run out |
| `HedgedRead.RoundsAreQuotient` | shared/db_reader.py:164-168 | the number of polls of a wait is the wait divided by the poll interval, rounded up |
| `HedgedRead.RoundLimitInMs` | shared/db_reader.py:158-168 | the limit on the rounds of a read, in milliseconds of the hedge delay and of SQLAlchemy |
| `HedgedRead.Wake` | shared/db_reader.py:164-168 | a wait ends after at most a poll interval, and earlier only because an attempt settled |
| `HedgedRead.RoundUsesBudget` | shared/db_reader.py:132-168 | every round without an answer uses up some of an explicit budget: the termination measure |
| `HedgedRead.RoundNearsAnswer` | shared/db_reader.py:136-168 | while a connectorx attempt that will answer is waited for, every round uses up some of its own budget |
| `HedgedRead.RoundNearsFallback` | shared/db_reader.py:136-168 | when connectorx fails, every round uses up some of a budget made of its failure and SQLAlchemy alone, whatever the hedge delay |
| `HedgedRead.InstantIsPunctual` | shared/db_reader.py:136-168 | without delays between the lines, SQLAlchemy has started at its moment or it is not too late for it |
| `HedgedRead.Reader.LookAtConnectorX` | shared/db_reader.py:136-143 | a finished connectorx read is returned, or dropped for a SQLAlchemy read that is running or starts now; an unfinished one is kept |
| `HedgedRead.NothingEndsIt` | shared/db_reader.py:132-168 | if SQLAlchemy hangs, and connectorx is skipped or never gives a frame, no answer but a cancellation can end a round |
| `HedgedRead.Reader.Round` | shared/db_reader.py:136-162 | one round keeps the loop invariant and answers honestly, attempts settling between any two lines; a round without an answer drops connectorx exactly when it was seen to have failed, and then SQLAlchemy is running; it starts SQLAlchemy at the deadline |
| `HedgedRead.Reader.Read` | shared/db_reader.py:112-168 | frames come from a successful attempt; SQLAlchemy runs beside connectorx only after its failure or the hedge delay; errors need SQLAlchemy failed and connectorx failed or max(delay, 30 s) waited; the endpoint is flagged exactly when SQLAlchemy beat an undecided connectorx; the loop ends within a computed number of rounds if SQLAlchemy settles or an unflagged connectorx gives a frame, and otherwise goes on until cancelled; when connectorx fails the number of rounds does not depend on the hedge delay, and without delays between the lines SQLAlchemy starts at the failure or the deadline, whichever is first, up to a poll |
| `PolarsCode.PrintIsSignsAndCore` | flowfile_frame/flowfile_frame/expr.py:956-965 | every text is a row of signs and inversions in front of a primary or a group |
| `PolarsCode.PrintedTextReads` | flowfile_frame/flowfile_frame/expr.py:575-671 | for every expression, what Python reads from its text: one definite tree, with the whole text used |
| `PolarsCode.ReadsAsMeantIff` | flowfile_frame/flowfile_frame/expr.py:845-965 | the tree read is the tree meant if and only if no negation, inversion or negative number receives a method call or is the base of a power |
| `PolarsCode.RoundTripIff` | flowfile_frame/flowfile_frame/expr.py:575-671 | printing and parsing gives the expression back exactly for those expressions |
| `PolarsCode.NegatedReceiver` | flowfile_frame/flowfile_frame/expr.py:962-966 | `(-x).f(...)` is read as `-(x.f(...))` for every x |
| `PolarsCode.NegatedBase` | flowfile_frame/flowfile_frame/expr.py:833-838 | `(-x) ** y` is read as `-(x ** y)` for every x and y |
| `PolarsCode.FaithfulTextValue` | flowfile_frame/flowfile_frame/expr.py:575-671 | the text of a faithful expression has the value of the expression in every interpretation of the operators |
| `PolarsCode.SelectorText` | flowfile_frame/flowfile_frame/selectors.py:102-121 | what Python reads from a selector text |
| `PolarsCode.SelectorRoundTrip` | flowfile_frame/flowfile_frame/selectors.py:102-121 | selector texts round-trip for every tree of set operations |
| `PolarsCode.SelectorTextSelects` | flowfile_frame/flowfile_frame/selectors.py:102-121 | the text of a selector, as Python reads it, selects exactly the union, intersection, difference, symmetric difference or complement that was asked for |
| `PolarsCode.AggregateReadsAsMeantIff` | flowfile_frame/flowfile_frame/expr.py:461-468 | aggregating a selector reads back as meant if and only if the selector is a basic one |
| `Text.IntRoundTrip` | flowfile_frame/flowfile_frame/expr.py:84-85 | the decimal text of every integer reads back as that integer |
| `Text.Decimal` | flowfile_frame/flowfile_frame/expr.py:84-85 | the text of a number is that of its tens followed by its last digit |
| `FormulaSyntax.EscapeCons` | flowfile_frame/flowfile_frame/expr.py:86-88 | the two replacements, one after the other, escape each character exactly once |
| `FormulaSyntax.QuotedRoundTrip` | flowfile_frame/flowfile_frame/expr.py:86-88 | an escaped string literal reads back as the string, for every string |
| `FormulaSyntax.PrintedFormulaParses` | flowfile_frame/flowfile_frame/expr.py:625-671 | a printed formula parses to itself in any context it is printed in |
| `FormulaSyntax.FormulaRoundTripIff` | flowfile_frame/flowfile_frame/expr.py:625-671 | the whole text parses to the formula if and only if no column name has a closing bracket |
| `FormulaCompiler.CombineKeepsValue` | flowfile_frame/flowfile_frame/expr.py:826-838 | `//` as floor of a quotient, `**` as power, and every mapped operator keep the value |
| `FormulaCompiler.CompileKeepsValue` | flowfile_frame/flowfile_frame/expr.py:625-904 | the formula of an expression has the expression's value on every row |
| `FormulaCompiler.CompileKeepsNames` | flowfile_frame/flowfile_frame/expr.py:1286-1300 | the formula names exactly the columns the expression reads, so it is readable exactly when they are |
| `FormulaCompiler.FormulaTextMeansExpression` | flowfile_frame/flowfile_frame/expr.py:625-904 | whenever there is a formula text, it parses and evaluates on every row to the value of the expression |
| `FormulaCompiler.CompilesIff` | flowfile_frame/flowfile_frame/expr.py:645-652 | there is a formula exactly when every part has a counterpart |
| `FormulaCompiler.EvalReadsOnly` | flowfile_frame/flowfile_frame/expr.py:1286-1300 | an expression depends only on the columns it reads |
| `FormulaMeaning.ArithmeticValues` | flowfile_frame/flowfile_frame/expr.py:806-819 | `+`, `-`, `*` and negation of number values are those of the numbers |
| `FormulaMeaning.ComparisonValues` | flowfile_frame/flowfile_frame/expr.py:907-936 | the comparisons of number values are those of the numbers |
| `FormulaMeaning.DivisionValues` | flowfile_frame/flowfile_frame/expr.py:821-843 | `/` times the divisor is the dividend; `//` is the integer at or below the quotient; `%` is what that leaves, with the sign of the divisor; none has a value for zero |
| `FormulaMeaning.SumLaws` | flowfile_frame/flowfile_frame/expr.py:806-814 | `(x - y) + y` is x, sums commute, zero adds nothing |
| `FormulaMeaning.NegationLaws` | flowfile_frame/flowfile_frame/expr.py:962-966 | `-x + x` is zero, `x - y` is `x + -y`, and negating twice changes nothing |
| `FormulaMeaning.QuotientLaw` | flowfile_frame/flowfile_frame/expr.py:816-824 | `(x / y) * y` is x for y not zero |
| `FormulaMeaning.RemainderLaw` | flowfile_frame/flowfile_frame/expr.py:826-843 | `x % y` is `x - y * (x // y)` for y not zero |
| `FormulaMeaning.OrderLaws` | flowfile_frame/flowfile_frame/expr.py:907-936 | `x < y` holds exactly when `x - y` is negative; the other comparisons are its converse, its negation and that of its converse |
| `FormulaMeaning.NullOperand` | flowfile_frame/flowfile_frame/expr.py:806-936 | an operator other than `&`, `or` and `**` is null for a null operand |
| `FormulaMeaning.ThreeValued` | flowfile_frame/flowfile_frame/expr.py:938-954 | and and or give a truth value exactly when every choice for the unknown operands gives it |
| `FormulaMeaning.MethodValues` | flowfile_frame/flowfile_frame/expr.py:966-1058 | null tests are opposites, filling null changes nothing else, a floor is the integer at or below |
| `FormulaMeaning.ArithmeticTexts` | flowfile_frame/flowfile_frame/expr.py:45-49 | each arithmetic operator is written with its own sign, in parentheses |
| `FormulaMeaning.OrderTexts` | flowfile_frame/flowfile_frame/expr.py:45-49 | each ordering is written with its own sign |
| `FormulaMeaning.TruthTexts` | flowfile_frame/flowfile_frame/expr.py:45-49 | equality is written with its sign, and and or as words |
| `FormulaMeaning.FloorDivText` | flowfile_frame/flowfile_frame/expr.py:826-831 | `//` is written as the floor of a quotient |
| `FormulaMeaning.PowerText` | flowfile_frame/flowfile_frame/expr.py:833-838 | `**` is written as a call |
| `FormulaMeaning.LeafTexts` | flowfile_frame/flowfile_frame/expr.py:78-91 | strings are quoted with a backslash before a quote or a backslash, truth values are words |
| `FormulaMeaning.TextComputes` | flowfile_frame/flowfile_frame/expr.py:625-936 | the text of an arithmetic operation or comparison, read back, gives the result on the numbers |
| `WithColumns.ChainIsTogetherIff` | flowfile_frame/flowfile_frame/flow_frame.py:3116-3124 | for expressions of which none reads an earlier output, the formula chain has the values and column order of evaluating all on the input if and only if the output names are distinct; otherwise Polars raises |
| `WithColumns.CopyOfEarlierOutputIff` | flowfile_frame/flowfile_frame/flow_frame.py:3116-3124 | when the second expression copies the first one's output, chain and Polars agree on exactly the rows the first leaves alone |
| `WithColumns.DependentChainDiffers` | flowfile_frame/flowfile_frame/flow_frame.py:3116-3124 | `a + 1 as a` followed by `a as b` differs wherever a is a number |
| `WithColumns.TogetherSets` | flowfile_frame/flowfile_frame/flow_frame.py:3126-3158 | Polars sets each output to its expression on the input row and leaves every other column |
| `WithColumns.ColumnsAfter` | flowfile_frame/flowfile_frame/flow_frame.py:3116-3124 | existing columns keep their places and each new output is added once after them |
| `WithColumns.NewColumnsInOrder` | flowfile_frame/flowfile_frame/flow_frame.py:3116-3124 | new outputs come in the order of their expressions |
| `WithColumns.UnaliasedName` | flowfile_frame/flowfile_frame/expr.py:479-489 | an expression without an alias is called after its leftmost column, or literal |
| `WithColumns.FormulaNodeSetsValue` | flowfile_frame/flowfile_frame/flow_frame.py:2452-2471 | a formula node sets its column to the value of the expression on every row |
| `WithColumns.ColumnName` | flowfile_frame/flowfile_frame/expr.py:430-490 | a column name, where there is one, is the name of the output |
| `WithColumns.PlainHasName` | flowfile_frame/flowfile_frame/expr.py:479-489 | an expression over plain columns has a column name |
| `WithColumns.PlainFormulas` | flowfile_frame/flowfile_frame/flow_frame.py:3116-3120 | over plain columns the formula path is taken exactly when every expression is made of constructs a formula can express |
| `WithColumns.FormulaChain` | flowfile_frame/flowfile_frame/flow_frame.py:3121-3124 | the loop over formula nodes computes the chain |
| `WithColumns.WithColumns` | flowfile_frame/flowfile_frame/flow_frame.py:3116-3158 | formulas are used all together or not at all, and only with column names; the result is the chain, and is Polars' answer for independent expressions exactly when the outputs are distinct |
| `Concat.NumberedInjective` | flowfile_core/flowfile_core/flowfile/flow_data_engine/flow_data_engine.py:2837-2842 | numbered input names are distinct |
| `Concat.BoundFirst` | flowfile_core/flowfile_core/flowfile/flow_data_engine/flow_data_engine.py:2837-2842 | the k-th of several inputs is bound to its numbered name |
| `Concat.BindingNames` | flowfile_core/flowfile_core/flowfile/flow_data_engine/flow_data_engine.py:2836-2843 | one input is input_df, several are input_df_1, input_df_2 and so on |
| `Concat.Node.AddConnection` | flowfile_core/flowfile_core/flowfile/flow_node/flow_node.py:672-685 | a connection appends the source and records the output it is read from |
| `Concat.MoveFrames` | flowfile_frame/flowfile_frame/flow_frame.py:2887-2894 | moving frames to a combined graph succeeds if and only if no frame object occurs twice, and then maps every node id |
| `Concat.UniqueShorterIff` | flowfile_frame/flowfile_frame/flow_frame.py:2904-2910 | there are fewer sources than frames exactly when a node id is repeated |
| `Concat.UniqueKeepsOrder` | flowfile_frame/flowfile_frame/flow_frame.py:2904-2910 | the sources of the first frames are the first sources: each stands where it first occurs |
| `Concat.Sources` | flowfile_frame/flowfile_frame/flow_frame.py:2904-2909 | the sources are the different node ids in order of first occurrence, each id with its position |
| `Concat.InputVars` | flowfile_frame/flowfile_frame/flow_frame.py:2941-2947 | each frame is named by the variable of its source |
| `Concat.Wire` | flowfile_frame/flowfile_frame/flow_frame.py:2934-2939 | each source is wired once, in order of first occurrence, on its first output |
| `Concat.VariablesResolve` | flowfile_frame/flowfile_frame/flow_frame.py:2941-2949 | the variable list evaluates to the frames' sources in order with repeats |
| `Concat.ChoosePlan` | flowfile_frame/flowfile_frame/flow_frame.py:2904-2949 | the union is chosen exactly under its four conditions, otherwise code naming one variable per frame |
| `Concat.CompiledRuns` | flowfile_core/flowfile_core/flowfile/flow_data_engine/flow_data_engine.py:2836-2843 | a compiled node, of either form, makes the requested pl.concat call on the first outputs of the frames' nodes in order with repeats, whatever the data |
| `Concat.BuildNode` | flowfile_frame/flowfile_frame/flow_frame.py:2899-2967 | the node for frames of one graph is such a compiled node, with each source wired once |
| `Concat.KeepsDataIff` | flowfile_frame/flowfile_frame/flow_frame.py:2934-2967 | the node concatenates the frames' own data, whatever it is, if and only if every frame is on its node's first output |
| `Concat.SplitBranchesConcatenated` | flowfile_frame/flowfile_frame/flow_frame.py:1314-1328 | concatenating both branches of a split takes the first branch twice |
| `Concat.SeveralGraphsIff` | flowfile_frame/flowfile_frame/flow_frame.py:2880-2887 | the frames span several graphs exactly when their flow ids have more than one value |
| `Concat.Concat` | flowfile_frame/flowfile_frame/flow_frame.py:2879-2967 | the whole call: it fails exactly when frames of several graphs contain one frame twice; otherwise the frames are moved if needed, the node is compiled from their new ids, and keeps their data exactly when all are on first outputs |
| `TopoSort.Pass` | flowfile_frame/submodule_stub_generator.py:231-243 | one pass keeps the sorting invariant and either places a class or leaves everything as it was |
| `TopoSort.SortClasses` | flowfile_frame/submodule_stub_generator.py:219-247 | a permutation: first the least set of classes closed under "all local bases placed", each after its bases, then the rest in source order; the rest is empty exactly when the classes can be ordered, and classes in order already stay as they are |
| `TopoSort.SortedInBaseOrder` | flowfile_frame/submodule_stub_generator.py:226-247 | before the fallback each class comes after a definition of every plain-name base that the file defines; each class of the fallback lacks such a base |
| `TopoSort.StuckInOrder` | flowfile_frame/submodule_stub_generator.py:244-246 | the classes the fallback appends keep the order of the file |
| `TopoSort.AcyclicNeedsNoFallback` | flowfile_frame/submodule_stub_generator.py:244-246 | acyclic bases leave nothing for the fallback, repeated names or not |
| `TopoSort.FallbackIff` | flowfile_frame/submodule_stub_generator.py:244-246 | the fallback is taken if and only if no rank gives every ranked name a definition with lower bases and reaches the bases of every class; names may repeat |
| `TopoSort.FallbackIffCyclic` | flowfile_frame/submodule_stub_generator.py:244-246 | with distinct names the fallback is taken if and only if the bases are cyclic |
| `TopoSort.RepeatedNameNeedsDistinctness` | flowfile_frame/submodule_stub_generator.py:226-226 | a name defined twice may inherit from itself without a fallback |
| `DeltaMerge.DeltaStore.Write` | shared/delta_utils.py:163-192 | an append is skipped exactly when it has no rows and the table's columns, and then it would change nothing; overwrite replaces; an append keeps every cell of the old and the new rows, in order, and holds null in every column a row lacks |
| `DeltaMerge.DeltaStore.MergeInto` | shared/delta_utils.py:217-274 | the whole outcome: what a missing table becomes in every mode, when and only when a merge is skipped (it would change nothing), which error each bad call gives, and that a failed merge keeps every row |
| `DeltaMerge.CreatedIsEmptyThenMerged` | shared/delta_utils.py:230-241 | creating a missing table equals merging into an empty one of the source schema, in every mode |
| `DeltaMerge.UpsertIsOverride` | shared/delta_utils.py:247-267 | upsert is a keyed override with nulls in new columns, for every key |
| `DeltaMerge.UpdateKeepsKeys` | shared/delta_utils.py:268-269 | update keeps the keys row by row and overrides matched rows |
| `DeltaMerge.DeleteRemovesExactly` | shared/delta_utils.py:270-271 | delete removes exactly the rows with a key of the source |
| `DeltaMerge.UpsertIdempotentIff` | shared/delta_utils.py:247-267 | upserting twice is upserting once if and only if no source row has a null in its key |
| `DeltaMerge.UpsertKeepsUnique` | shared/delta_utils.py:247-267 | distinct keys on both sides stay distinct |
| `DeltaCells.UpsertCells` | shared/delta_utils.py:247-267 | after an upsert each target row is overlaid by a source row equal to it in every non-null key column, or else null in the new columns; the source rows that match none follow in order, null in the columns they lack |
| `DeltaCells.UpdateCells` | shared/delta_utils.py:247-269 | an update does the same to the target rows and adds none |
| `DeltaCells.DeleteLeaves` | shared/delta_utils.py:270-271 | delete leaves exactly the rows that match no source row, as they were and in order |
| `DeltaCells.AddedColumns` | shared/delta_utils.py:249-254 | the columns added are exactly those the table lacks, in the order of the source |
| `DeltaCells.UniqueIff` | shared/delta_utils.py:247-267 | source keys are distinct exactly when no two rows match each other |
| `DeltaCells.NoNullKeyIff` | shared/delta_utils.py:247-267 | no key is null exactly when every key column of every row holds a value |
| `VirtualTableCache.TargetInjective` | flowfile_worker/flowfile_worker/funcs.py:1103-1103 | a target name determines table id and hash prefix |
| `VirtualTableCache.TargetsCoincideIff` | flowfile_worker/flowfile_worker/funcs.py:1103-1103 | two requests share a target exactly when they are for one table and their hashes agree in the first sixteen characters |
| `VirtualTableCache.TargetText` | flowfile_worker/flowfile_worker/funcs.py:1091-1103 | the target as text: fvt-, the id in decimals, a dash, sixteen characters of the hash, .arrow; and the temporary name |
| `VirtualTableCache.StepKeeps` | flowfile_worker/flowfile_worker/funcs.py:1085-1096 | every open, write, rename, request or crash keeps each target absent or complete |
| `VirtualTableCache.HitIsRecomputation` | flowfile_worker/flowfile_worker/funcs.py:1099-1109 | over any requests and crashes, with one writer per target, a target is absent or holds what recomputing would give |
| `VirtualTableCache.Worker.Resolve` | flowfile_worker/flowfile_worker/funcs.py:1099-1132 | a request answers exactly when the target exists or its child lives to reply; the answer is what recomputing gives; the target is present, and complete, exactly after an answer or a death just before one |
| `VirtualTableCache.Worker.RunChild` | flowfile_worker/flowfile_worker/funcs.py:1085-1096 | a child killed after any number of steps leaves the target absent before the rename and complete after it |
| `VirtualTableCache.SharedTempBreaksTarget` | flowfile_worker/flowfile_worker/funcs.py:1091-1093 | two children of one target: for every plan the shared temporary name lets an emptied file become the target, incomplete unless the plan is empty |
| `ArtifactStore.KeySplits` | shared/artifact_storage.py:145-155 | a storage key splits back into its id and filename |
| `ArtifactStore.StagedInjective` | shared/artifact_storage.py:144-156 | staging names of different artifacts never collide |
| `ArtifactStore.ForeignKeyCollidesIff` | shared/artifact_storage.py:155-156 | exactly which keys that prepare_upload does not make name an artifact's staged file |
| `ArtifactStore.ForeignKeyExample` | shared/artifact_storage.py:155-156 | an instance: the key 1_2/x names the staged file 2_x of artifact 1 |
| `ArtifactStore.NamesExample` | shared/artifact_storage.py:142-151 | the key and the staged name of artifact 42 called model.joblib |
| `ArtifactStore.StoreIsMap` | shared/artifact_storage.py:142-194 | over any writes, finalizes and deletes of slash-free filenames the store holds, under each key, the bytes last finalized with the right digest and not deleted since |
| `ArtifactStore.WritesReach` | shared/artifact_storage.py:161-174 | after kernel writes a staged file holds the last bytes written to it, or what it held |
| `ArtifactStore.SharedFilesystemStorage.KernelWrites` | kernel_runtime/kernel_runtime/flowfile_client.py:364-368 | the kernel's write goes to the path that prepare_upload gave |
| `ArtifactStore.SharedFilesystemStorage.PrepareUpload` | shared/artifact_storage.py:142-151 | the key splits into the parts the staging path is made of |
| `ArtifactStore.SharedFilesystemStorage.FinalizeUpload` | shared/artifact_storage.py:153-176 | each error exactly when it applies; no entry but that of the key changes, and none on an error; the staged file is gone after either verdict; on success the file as it is at the move is under the key: the checked bytes if and only if no kernel write came between, or it wrote the same digest |
| `ArtifactStore.SharedFilesystemStorage.DeleteBlob` | shared/artifact_storage.py:185-194 | exactly the entry of the key goes |
| `ArtifactStore.SharedFilesystemStorage.ComputeSha256` | shared/artifact_storage.py:200-206 | the digest taken chunk by chunk is the digest of the whole file |

## Left out

- The push trigger path, run creation outside the scheduler, and any creation, edit or removal of schedules and registrations: other components; the definitions of schedules stay as they are over a whole run. Completion of runs and table updates are events of the model.
- SQLAlchemy's identity map: a row is read as committed at the moment it is used, overlaid with the session's own pending writes.
- A NULL `heartbeat_at` and a failing release: the column is never written NULL, and a failed release is a release that does not happen.
- Conversion of a base timestamp that overflows the local calendar: local time is total here.
- HedgedRead.Reader.Read: the loop is run for at most `polls` rounds, because it need not end (`NeverEnds` says when); attempts are plans with arbitrary delays at every look instead of threads, and other readers of the process do not flag endpoints meanwhile.
- HedgedRead.Reader.Read: the endpoint key stands for the hash of the URI without its password.
- The lexical level of generated Python (tokens are given), keyword arguments, `when`/`then`/`otherwise`, `over`, `filter` and lambda sources.
- FormulaCompiler.FormulaTextMeansExpression: exact numbers instead of floating point, no casts, and no value for a division by zero; the formula engine itself is not in this repository, so the semantics of its functions are parameters shared by both sides. Date parts (`year`, `month`, ...) are unary functions like those listed and would add nothing.
- Float literals: only integer, string and boolean literals are printed; `str()` of a float is not modelled.
- WithColumns.WithColumns: methods are taken to be row-wise. What Polars gives for a pattern such as `*` is a parameter; the formula path reads a column of that very name, and no agreement is claimed there.
- The conversion of formulas back to expressions, output data types, and the cumulative-count detection of `with_columns`.
- `select`, `rename` and `sort` code generation: their native-path choices would add easy members.
- Concat.MoveFrames: the combined graph's id is taken to be new; the code derives it from a hash of the ids, which does not guarantee it.
- What `pl.concat` does with its frames, and the combining of graphs itself.
- Delta's own storage, partition checks, and merges in which one target row has several matches: the engine's answer there is arbitrary.
- Write modes other than overwrite and append.
- VirtualTableCache.HitIsRecomputation: files are batches of rows and a crash falls between batches; modification times are not modelled.
- ArtifactStore.StoreIsMap: filenames are slash-free and not `.` or `..`, so that each is a file of its own in its directory; the sharing of directories between nested names is not modelled.
- Path normalisation, copy-based moves across file systems, S3 storage and presigned URLs.
- FastAPI routes, process management, logging, secrets, joins, pivots, ML nodes and stub text emission.
