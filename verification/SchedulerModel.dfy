/**
 The scheduler of flowfile_scheduler/engine.py as a labelled transition system.

 Any number of scheduler instances share one database.  An instance is idle, in
 the middle of taking the advisory lock, or inside a tick; inside a tick it moves
 through the points where another process can get in between: before a schedule
 is evaluated, after the active-run check, after the run row is committed, after
 the process is spawned.  An operation that is not enabled leaves the state alone.
 */
module SchedulerModel {
  import opened Wrappers

  type Time = int   // microseconds, UTC
  type Local = int  // microseconds of naive local wall-clock time

  const SECOND := 1_000_000
  const STALE_THRESHOLD := 90 * SECOND

  datatype Kind = Interval | Cron | TableTrigger | TableSet

  datatype Schedule = Schedule(
    reg: int,
    enabled: bool,
    kind: Kind,
    intervalSeconds: Option<int>,
    cronExpression: Option<string>,
    cronTimezone: Option<string>,
    triggerTable: Option<int>,
    links: seq<int>,
    createdAt: Option<Time>,
    lastTriggered: Option<Time>,
    lastCronSlot: Option<Local>,
    lastSeen: Option<Time>)

  /** Why a run was started: a history variable, kept on the run it explains. */
  datatype Cause =
    | ByInterval
    | ByCron(base: Local, slot: Local, cursor: Local)
    | ByTable(stamp: Time)
    | BySet(stamps: seq<Time>)

  /** A row of flow_runs; the row's id is its position.  `schedule` is None for a
      run that some other component created. */
  datatype Run = Run(
    reg: int,
    schedule: Option<nat>,
    started: Time,
    ended: Option<Time>,
    success: Option<bool>,
    pid: Option<int>,
    cause: Option<Cause>)

  datatype Lock = Lock(holder: int, startedAt: Time, heartbeatAt: Time)

  /** The committed rows and the wall clock.  A table is the history of its
      `updated_at` values: the column holds the last one, NULL when there is none. */
  datatype Db = Db(
    clock: Time,
    lock: Option<Lock>,
    regs: set<int>,
    schedules: seq<Schedule>,
    runs: seq<Run>,
    tables: map<int, seq<Time>>)

  /** zoneinfo and croniter.  `local` need not be monotone: wall clocks jump back. */
  datatype Calendar = Calendar(
    validZone: string -> bool,
    local: (string, Time) -> Local,
    next: (string, Local) -> Option<Local>)

  /** Uncommitted `last_trigger_table_updated_at` values, by schedule: the only
      write that a session carries from one schedule to the next. */
  type Dirty = map<nat, Time>

  datatype Phase =
    | Idle
    | Acquiring(seen: Option<Lock>)
    | Body
    | Checked(id: nat, cause: Cause)
    | Inserted(id: nat, run: nat)
    | CursorDue(id: nat, cursor: Local)

  /** `since` is the instant read by the lock code, `now` the instant the current
      processor works with. */
  datatype Instance = Instance(pc: Phase, since: Time, now: Time, dirty: Dirty)

  const IDLE := Instance(Idle, 0, 0, map[])

  predicate Inside(n: Instance) {
    !n.pc.Idle? && !n.pc.Acquiring?
  }

  datatype Event =
    | Advance(d: nat)
    | Touch(table: int, stamp: Time)
    | Complete(run: nat, ok: bool)

  datatype Op =
    | Env(e: Event)
    | ReadLock
    | WriteLock
    | ReadClock
    | Evaluate(id: nat)
    | Insert
    | Spawn(pid: Option<int>)
    | SaveCursor
    | EndTick
    | Crash
    | Release(row: Option<Lock>)

  // --- reading rows ---

  /** The schedule row as the session sees it: committed, overlaid with its own writes. */
  function SessionRow(db: Db, dirty: Dirty, id: nat): Schedule
    requires id < |db.schedules|
  {
    if id in dirty then db.schedules[id].(lastSeen := Some(dirty[id])) else db.schedules[id]
  }

  function Stamp(tables: map<int, seq<Time>>, t: int): Option<Time> {
    if t in tables && tables[t] != [] then Some(tables[t][|tables[t]| - 1]) else None
  }

  function Zone(sc: Schedule): string {
    if sc.cronTimezone.None? || sc.cronTimezone.value == "" then "UTC" else sc.cronTimezone.value
  }

  function CronBase(cal: Calendar, sc: Schedule): Option<Local> {
    if sc.lastCronSlot.Some? then sc.lastCronSlot
    else if sc.lastTriggered.Some? then Some(cal.local(Zone(sc), sc.lastTriggered.value))
    else if sc.createdAt.Some? then Some(cal.local(Zone(sc), sc.createdAt.value))
    else None
  }

  predicate IntervalDue(sc: Schedule, now: Time) {
    && sc.intervalSeconds.Some?
    && (sc.lastTriggered.Some? ==> sc.intervalSeconds.value * SECOND - (now - sc.lastTriggered.value) <= 0)
  }

  function CronDue(cal: Calendar, sc: Schedule, now: Time): Option<Cause> {
    if sc.cronExpression.None? || sc.cronExpression.value == "" then None
    else if !cal.validZone(Zone(sc)) then None
    else
      match CronBase(cal, sc)
      case None => None
      case Some(base) =>
        match cal.next(sc.cronExpression.value, base)
        case None => None
        case Some(slot) =>
          var here := cal.local(Zone(sc), now);
          if slot <= here then Some(ByCron(base, slot, here)) else None
  }

  function TableDue(tables: map<int, seq<Time>>, sc: Schedule): Option<Cause> {
    if sc.triggerTable.None? then None
    else
      match Stamp(tables, sc.triggerTable.value)
      case None => None
      case Some(stamp) =>
        if sc.lastSeen.None? || stamp > sc.lastSeen.value then Some(ByTable(stamp)) else None
  }

  /** One linked table has an update the schedule's last run did not see. */
  predicate Fresh(tables: map<int, seq<Time>>, t: int, last: Option<Time>) {
    Stamp(tables, t).Some? && (last.Some? ==> Stamp(tables, t).value > last.value)
  }

  function Stamps(tables: map<int, seq<Time>>, links: seq<int>): (r: seq<Time>)
    requires forall k :: 0 <= k < |links| ==> Stamp(tables, links[k]).Some?
    ensures |r| == |links| && forall k :: 0 <= k < |links| ==> Stamp(tables, links[k]) == Some(r[k])
  {
    seq(|links|, k requires 0 <= k < |links| => Stamp(tables, links[k]).value)
  }

  function SetDue(tables: map<int, seq<Time>>, sc: Schedule): Option<Cause> {
    if |sc.links| < 2 then None
    else if forall k :: 0 <= k < |sc.links| ==> Fresh(tables, sc.links[k], sc.lastTriggered)
    then Some(BySet(Stamps(tables, sc.links)))
    else None
  }

  function Due(cal: Calendar, tables: map<int, seq<Time>>, sc: Schedule, now: Time): Option<Cause> {
    if !sc.enabled then None
    else
      match sc.kind
      case Interval => if IntervalDue(sc, now) then Some(ByInterval) else None
      case Cron => CronDue(cal, sc, now)
      case TableTrigger => TableDue(tables, sc)
      case TableSet => SetDue(tables, sc)
  }

  predicate HasActive(runs: seq<Run>, reg: int) {
    exists k :: 0 <= k < |runs| && runs[k].reg == reg && runs[k].ended.None?
  }

  predicate CanLaunch(db: Db, reg: int) {
    reg in db.regs && !HasActive(db.runs, reg)
  }

  // --- writing rows ---

  function Flush(schedules: seq<Schedule>, dirty: Dirty): (r: seq<Schedule>)
    ensures |r| == |schedules|
    ensures forall k :: 0 <= k < |r| ==>
      r[k] == if k in dirty then schedules[k].(lastSeen := Some(dirty[k])) else schedules[k]
  {
    seq(|schedules|, k requires 0 <= k < |schedules| =>
      if k in dirty then schedules[k].(lastSeen := Some(dirty[k])) else schedules[k])
  }

  function EnvStep(db: Db, e: Event): Db {
    match e
    case Advance(d) => db.(clock := db.clock + d)
    case Touch(t, stamp) =>
      if t in db.tables && stamp <= db.clock &&
         (Stamp(db.tables, t).Some? ==> Stamp(db.tables, t).value <= stamp)
      then db.(tables := db.tables[t := db.tables[t] + [stamp]])
      else db
    case Complete(run, ok) =>
      if run < |db.runs|
      then db.(runs := db.runs[run := db.runs[run].(ended := Some(db.clock), success := Some(ok))])
      else db
  }

  /** Lines 130-151 of engine.py: what the lock row read earlier leads this instance to write.
      An UPDATE or INSERT that no longer matches the row aborts the tick. */
  function WriteLockStep(me: int, db: Db, n: Instance): (Db, Instance)
    requires n.pc.Acquiring?
  {
    var mine := Lock(me, n.since, n.since);
    var entered := n.(pc := Body, now := db.clock, dirty := map[]);
    match n.pc.seen
    case None =>
      if db.lock.None? then (db.(lock := Some(mine)), entered) else (db, IDLE)
    case Some(row) =>
      if row.holder == me then
        if db.lock.Some? then (db.(lock := Some(db.lock.value.(heartbeatAt := n.since))), entered) else (db, IDLE)
      else if n.since - row.heartbeatAt > STALE_THRESHOLD then
        if db.lock.Some? then (db.(lock := Some(mine)), entered) else (db, IDLE)
      else (db, IDLE)
  }

  function EvaluateStep(cal: Calendar, db: Db, n: Instance, id: nat): Instance
    requires n.pc.Body?
  {
    if id >= |db.schedules| then n
    else
      var sc := SessionRow(db, n.dirty, id);
      var now := if sc.kind.TableTrigger? || sc.kind.TableSet? then db.clock else n.now;
      match Due(cal, db.tables, sc, now)
      case None => n
      case Some(cause) =>
        var dirty := if cause.ByTable? then n.dirty[id := cause.stamp] else n.dirty;
        n.(now := now, dirty := dirty, pc := if CanLaunch(db, sc.reg) then Checked(id, cause) else Body)
  }

  function InsertStep(db: Db, n: Instance): (Db, Instance)
    requires n.pc.Checked?
  {
    if n.pc.id >= |db.schedules| then (db, n)
    else
      var rows := Flush(db.schedules, n.dirty);
      var sc := rows[n.pc.id].(lastTriggered := Some(n.now));
      var run := Run(sc.reg, Some(n.pc.id), n.now, None, None, None, Some(n.pc.cause));
      (db.(schedules := rows[n.pc.id := sc], runs := db.runs + [run]),
       n.(pc := Inserted(n.pc.id, |db.runs|), dirty := map[]))
  }

  function SpawnStep(db: Db, n: Instance, pid: Option<int>): (Db, Instance)
    requires n.pc.Inserted?
  {
    if n.pc.run >= |db.runs| then (db, n)
    else
      var run := db.runs[n.pc.run];
      if pid.Some? then
        (db.(runs := db.runs[n.pc.run := run.(pid := pid)]),
         n.(pc :=
           if run.cause.Some? && run.cause.value.ByCron? then CursorDue(n.pc.id, run.cause.value.cursor) else Body))
      else
        (db.(runs := db.runs[n.pc.run := run.(ended := Some(db.clock), success := Some(false))]),
         n.(pc := Body))
  }

  function SaveCursorStep(db: Db, n: Instance): (Db, Instance)
    requires n.pc.CursorDue?
  {
    if n.pc.id >= |db.schedules| then (db, n)
    else
      (db.(schedules := db.schedules[n.pc.id := db.schedules[n.pc.id].(lastCronSlot := Some(n.pc.cursor))]),
       n.(pc := Body))
  }

  /** A release reads the lock row, and deletes whatever row there is if the one it read
      was its own. */
  predicate Deletes(me: int, db: Db, row: Option<Lock>) {
    row.Some? && row.value.holder == me && db.lock.Some?
  }

  function Released(me: int, db: Db, row: Option<Lock>): Db {
    if Deletes(me, db, row) then db.(lock := None) else db
  }

  /** One operation of instance `me`. */
  function Step(cal: Calendar, me: int, db: Db, n: Instance, op: Op): (Db, Instance) {
    match op
    case Env(e) => (EnvStep(db, e), n)
    case ReadLock => (db, if n.pc.Idle? then Instance(Acquiring(db.lock), db.clock, db.clock, map[]) else n)
    case WriteLock => if n.pc.Acquiring? then WriteLockStep(me, db, n) else (db, n)
    case ReadClock => (db, if n.pc.Body? then n.(now := db.clock) else n)
    case Evaluate(id) => (db, if n.pc.Body? then EvaluateStep(cal, db, n, id) else n)
    case Insert => if n.pc.Checked? then InsertStep(db, n) else (db, n)
    case Spawn(pid) => if n.pc.Inserted? then SpawnStep(db, n, pid) else (db, n)
    case SaveCursor => if n.pc.CursorDue? then SaveCursorStep(db, n) else (db, n)
    case EndTick => (db, if n.pc.Body? then IDLE else n)
    case Crash => (db, IDLE)
    case Release(row) => (Released(me, db, row), n)
  }

  // --- the whole system ---

  datatype Sys = Sys(db: Db, nodes: map<int, Instance>)

  datatype Action = By(who: int, op: Op)

  function Apply(cal: Calendar, s: Sys, a: Action): (t: Sys)
    ensures t.nodes.Keys == s.nodes.Keys
  {
    if a.who in s.nodes then
      var (db, n) := Step(cal, a.who, s.db, s.nodes[a.who], a.op);
      Sys(db, s.nodes[a.who := n])
    else s
  }

  function Exec(cal: Calendar, s: Sys, run: seq<Action>): (t: Sys)
    ensures t.nodes.Keys == s.nodes.Keys
    decreases |run|
  {
    if run == [] then s else Exec(cal, Apply(cal, s, run[0]), run[1..])
  }

  /** Nobody is running and no run was made by a schedule yet. */
  ghost predicate Init(s: Sys) {
    && (forall i :: i in s.nodes ==> s.nodes[i] == IDLE)
    && AtMostOneActive(s.db.runs)
    && (forall k :: 0 <= k < |s.db.runs| ==> s.db.runs[k].schedule.None?)
    && (forall id :: 0 <= id < |s.db.schedules| ==> ScheduleOk(s.db, s.db.schedules[id]))
    && (forall t :: t in s.db.tables ==> HistoryOk(s.db.tables[t], s.db.clock))
  }

  /** Timestamps come from the past, and nothing was seen that did not happen. */
  ghost predicate ScheduleOk(db: Db, sc: Schedule) {
    && (sc.lastTriggered.Some? ==> sc.lastTriggered.value <= db.clock)
    && (sc.lastSeen.Some? && sc.triggerTable.Some? ==>
          Stamp(db.tables, sc.triggerTable.value).Some? &&
          sc.lastSeen.value <= Stamp(db.tables, sc.triggerTable.value).value)
  }

  ghost predicate HistoryOk(h: seq<Time>, clock: Time) {
    && (forall k :: 0 <= k < |h| ==> h[k] <= clock)
    && (forall j, k :: 0 <= j <= k < |h| ==> h[j] <= h[k])
  }

  ghost predicate AtMostOneActive(runs: seq<Run>) {
    forall a, b ::
      0 <= a < |runs| && 0 <= b < |runs| && runs[a].ended.None? && runs[b].ended.None? && runs[a].reg == runs[b].reg
      ==> a == b
  }

  ghost predicate Exclusive(s: Sys) {
    forall i, j :: i in s.nodes && j in s.nodes && Inside(s.nodes[i]) && Inside(s.nodes[j]) ==> i == j
  }
}
