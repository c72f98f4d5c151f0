/**
 One tick of one instance, as the code runs it, proved to be a run of the transition
 system of SchedulerModel, whatever happens between its lines: time passes, tables are
 updated, children finish, other instances read, write and release the lock, and a
 `stop()` of the same instance releases it.
 */
module SchedulerTick {
  import opened Wrappers
  import opened SchedulerModel
  import opened SchedulerLease
  import opened SchedulerBounds

  /** What happens while one schedule is evaluated, and whether the child process can be
      spawned. */
  datatype Turn = Turn(
    before: seq<Action>, checked: seq<Action>, inserted: seq<Action>, pid: Option<int>, spawned: seq<Action>)

  /** What happens during a tick. */
  datatype Script = Script(locking: seq<Action>, start: Kind -> seq<Action>, turn: (Kind, nat) -> Turn)

  /** The actions of others.  While this instance takes the lock, another may be in the
      middle of its tick; once it is inside, the others only get to the lock. */
  predicate Foreign(me: int, inside: bool, a: Action) {
    || a.op.Env?
    || a.op.Release?
    || (a.who != me && (inside ==> a.op.ReadLock? || a.op.WriteLock? || a.op.Crash?))
  }

  /** Nothing is left out by that: whatever else another instance tries while this one
      holds the lease has no effect. */
  lemma OthersOnlyReachTheLock(cal: Calendar, s: Sys, me: int, a: Action)
    requires LeaseInv(s) && me in s.nodes && Inside(s.nodes[me])
    requires a.who != me && !Foreign(me, true, a)
    ensures Apply(cal, s, a) == s
  {
    if a.who in s.nodes {
      assert !Inside(s.nodes[a.who]);
      assert s.nodes[a.who := s.nodes[a.who]] == s.nodes;
    }
  }

  // --- specification: the actions of a tick ---

  /** Those of the given actions that are foreign. */
  function Acts(me: int, inside: bool, actions: seq<Action>): seq<Action> {
    if actions == [] then []
    else
      Acts(me, inside, actions[..|actions| - 1]) +
      if Foreign(me, inside, actions[|actions| - 1]) then [actions[|actions| - 1]] else []
  }

  lemma ActsStep(me: int, inside: bool, actions: seq<Action>, k: nat)
    requires k < |actions|
    ensures Acts(me, inside, actions[..k + 1]) ==
            if Foreign(me, inside, actions[k]) then Acts(me, inside, actions[..k]) + [actions[k]]
            else Acts(me, inside, actions[..k])
  {
    assert actions[..k + 1][..k] == actions[..k];
  }

  function Pc(s: Sys, me: int): Phase {
    if me in s.nodes then s.nodes[me].pc else Idle
  }

  function LockActs(me: int, script: Script): seq<Action> {
    [By(me, ReadLock)] + Acts(me, false, script.locking) + [By(me, WriteLock)]
  }

  function LaunchActs(me: int, t: Turn): seq<Action> {
    Acts(me, true, t.checked) + [By(me, Insert)] + Acts(me, true, t.inserted) + [By(me, Spawn(t.pid))]
  }

  /** One schedule: evaluate it; launch it if that leads past the check; save the
      cursor if that is what the launch leaves to do. */
  function TurnActs(cal: Calendar, me: int, s: Sys, id: nat, t: Turn): seq<Action> {
    var head := Acts(me, true, t.before) + [By(me, Evaluate(id))];
    var s1 := Exec(cal, s, head);
    if !Pc(s1, me).Checked? then head
    else
      var s2 := Exec(cal, s1, LaunchActs(me, t));
      if !Pc(s2, me).CursorDue? then head + LaunchActs(me, t)
      else head + LaunchActs(me, t) + (Acts(me, true, t.spawned) + [By(me, SaveCursor)])
  }

  function LoopActs(cal: Calendar, me: int, s: Sys, kind: Kind, ids: seq<nat>, k: nat, script: Script): seq<Action>
    requires k <= |ids|
    decreases |ids| - k
  {
    if k == |ids| then []
    else
      var head := TurnActs(cal, me, s, ids[k], script.turn(kind, k));
      head + LoopActs(cal, me, Exec(cal, s, head), kind, ids, k + 1, script)
  }

  /** The enabled schedules of one kind, in row order. */
  function Query(schedules: seq<Schedule>, kind: Kind): (ids: seq<nat>)
    ensures forall k :: 0 <= k < |ids| ==> ids[k] < |schedules|
    ensures forall id :: id in ids <==> 0 <= id < |schedules| && schedules[id].enabled && schedules[id].kind == kind
    ensures forall j, k :: 0 <= j < k < |ids| ==> ids[j] < ids[k]
  {
    if schedules == [] then []
    else
      var last := |schedules| - 1;
      Query(schedules[..last], kind) +
      if schedules[last].enabled && schedules[last].kind == kind then [last] else []
  }

  function PhaseActs(cal: Calendar, me: int, s: Sys, kind: Kind, script: Script): seq<Action> {
    var head := Acts(me, true, script.start(kind)) + [By(me, ReadClock)];
    head + LoopActs(cal, me, Exec(cal, s, head), kind, Query(s.db.schedules, kind), 0, script)
  }

  function PhasesActs(cal: Calendar, me: int, s: Sys, kinds: seq<Kind>, script: Script): seq<Action>
    decreases |kinds|
  {
    if kinds == [] then [By(me, EndTick)]
    else
      var head := PhaseActs(cal, me, s, kinds[0], script);
      head + PhasesActs(cal, me, Exec(cal, s, head), kinds[1..], script)
  }

  const PHASES := [Interval, Cron, TableTrigger, TableSet]

  function TickActs(cal: Calendar, me: int, s: Sys, script: Script): seq<Action> {
    var s1 := Exec(cal, s, LockActs(me, script));
    if Pc(s1, me).Body? then LockActs(me, script) + PhasesActs(cal, me, s1, PHASES, script) else LockActs(me, script)
  }

  // --- the system around one instance ---

  /** Where the other instances stand. */
  type Others = map<int, Instance>

  /** The system in which `me` stands at `n`. */
  function Around(db: Db, others: Others, me: int, n: Instance): Sys {
    Sys(db, others[me := n])
  }

  lemma MyStep(cal: Calendar, db: Db, others: Others, me: int, n: Instance, op: Op)
    ensures var (db', n') := Step(cal, me, db, n, op);
            Apply(cal, Around(db, others, me, n), By(me, op)) == Around(db', others, me, n')
  {
    var (db', n') := Step(cal, me, db, n, op);
    assert others[me := n][me := n'] == others[me := n'];
  }

  /** What others do does not depend on where `me` stands; once `me` is inside they
      change the lock at most. */
  lemma ForeignStep(cal: Calendar, db: Db, others: Others, me: int, n: Instance, a: Action)
    requires Foreign(me, false, a) && !a.op.Env?
    ensures var t := Apply(cal, Around(db, others, me, IDLE), a);
            && Apply(cal, Around(db, others, me, n), a) == Around(t.db, t.nodes, me, n)
            && (Foreign(me, true, a) ==> OnlyLock(db, t.db))
  {
    var t := Apply(cal, Around(db, others, me, IDLE), a);
    var u := Apply(cal, Around(db, others, me, n), a);
    assert u.nodes == t.nodes[me := n];
  }

  predicate OnlyLock(db: Db, db': Db) {
    db' == db.(lock := db'.lock)
  }

  lemma EventStep(cal: Calendar, s: Sys, a: Action)
    requires a.op.Env?
    ensures Apply(cal, s, a) == if a.who in s.nodes then s.(db := EnvStep(s.db, a.op.e)) else s
  {
    if a.who in s.nodes { assert s.nodes[a.who := s.nodes[a.who]] == s.nodes; }
  }

  // --- the tables, and the code ---

  /** The shared database file, the clock on the wall, and the other processes. */
  class Database {
    var clock: Time
    var lock: Option<Lock>
    var regs: set<int>
    var schedules: seq<Schedule>
    var runs: seq<Run>
    var tables: map<int, seq<Time>>
    var others: Others

    function Rows(): Db
      reads this
    {
      Db(clock, lock, regs, schedules, runs, tables)
    }

    function World(me: int, n: Instance): Sys
      reads this
    {
      Around(Rows(), others, me, n)
    }

    /** The rest of the world gets a chance to act. */
    method Yield(actions: seq<Action>, cal: Calendar, me: int, inside: bool, ghost n: Instance)
      modifies this
      ensures Exec(cal, old(World(me, n)), Acts(me, inside, actions)) == World(me, n)
      ensures inside ==> schedules == old(schedules) && regs == old(regs) && SamePids(old(runs), runs)
    {
      var k := 0;
      while k < |actions|
        invariant 0 <= k <= |actions|
        invariant Exec(cal, old(World(me, n)), Acts(me, inside, actions[..k])) == World(me, n)
        invariant inside ==> schedules == old(schedules) && regs == old(regs) && SamePids(old(runs), runs)
      {
        ActsStep(me, inside, actions, k);
        if Foreign(me, inside, actions[k]) {
          ExecLast(cal, old(World(me, n)), Acts(me, inside, actions[..k]), actions[k]);
          Happen(actions[k], cal, me, inside, n);
        }
        k := k + 1;
      }
      assert actions[..|actions|] == actions;
    }

    method Happen(a: Action, cal: Calendar, me: int, inside: bool, ghost n: Instance)
      requires Foreign(me, inside, a)
      modifies this
      ensures World(me, n) == Apply(cal, old(World(me, n)), a)
      ensures inside ==> schedules == old(schedules) && regs == old(regs) && SamePids(old(runs), runs)
    {
      if a.op.Env? {
        EventStep(cal, World(me, n), a);
        if a.who == me || a.who in others {
          Occur(a.op.e);
        }
      } else {
        ForeignStep(cal, Rows(), others, me, n, a);
        var t := Apply(cal, Around(Rows(), others, me, IDLE), a);
        Become(t.db, t.nodes);
      }
    }

    method Become(db: Db, nodes: Others)
      modifies this
      ensures Rows() == db && others == nodes
    {
      clock, lock, regs, schedules := db.clock, db.lock, db.regs, db.schedules;
      runs, tables, others := db.runs, db.tables, nodes;
    }

    method Occur(e: Event)
      modifies this
      ensures Rows() == EnvStep(old(Rows()), e) && others == old(others)
      ensures schedules == old(schedules) && regs == old(regs) && SamePids(old(runs), runs)
    {
      match e {
        case Advance(d) =>
          clock := clock + d;
        case Touch(t, stamp) =>
          if t in tables && stamp <= clock && (Stamp(tables, t).Some? ==> Stamp(tables, t).value <= stamp) {
            tables := tables[t := tables[t] + [stamp]];
          }
        case Complete(run, ok) =>
          if run < |runs| {
            runs := runs[run := runs[run].(ended := Some(clock), success := Some(ok))];
          }
      }
    }
  }

  ghost predicate SamePids(before: seq<Run>, after: seq<Run>) {
    && |before| == |after|
    && forall k :: 0 <= k < |before| ==> before[k].pid == after[k].pid && before[k].cause == after[k].cause
  }

  function Spawned(r: Run): bool {
    r.pid.Some?
  }

  ghost function Launches(runs: seq<Run>): nat {
    Count(runs, r => Spawned(r))
  }

  lemma {:induction false} SamePidsSameLaunches(before: seq<Run>, after: seq<Run>)
    requires SamePids(before, after)
    ensures Launches(before) == Launches(after)
  {
    if before != [] {
      SamePidsSameLaunches(before[..|before| - 1], after[..|after| - 1]);
    }
  }

  /** An ORM session inside a tick: rows it has changed and not committed.  `since` and
      `now` record the instants the tick works with. */
  class Session {
    var dirty: Dirty
    ghost const since: Time
    ghost var now: Time

    constructor (ghost since: Time, ghost now: Time)
      ensures View() == Instance(Body, since, now, map[])
    {
      this.dirty := map[];
      this.since := since;
      this.now := now;
    }

    ghost function View(): Instance
      reads this
    {
      Instance(Body, since, now, dirty)
    }
  }

  class FlowScheduler {
    const holderId: int
    const db: Database
    const cal: Calendar

    constructor (holderId: int, db: Database, cal: Calendar)
      ensures this.holderId == holderId && this.db == db && this.cal == cal
    {
      this.holderId := holderId;
      this.db := db;
      this.cal := cal;
    }

    /** Reads the lock row, then writes it if it is missing, ours or stale.  A row that is
        there or gone against what was read makes the write fail, which ends the tick. */
    method AcquireLock(script: Script) returns (held: bool, ghost since: Time, ghost now: Time)
      modifies db
      ensures Exec(cal, old(db.World(holderId, IDLE)), LockActs(holderId, script))
              == db.World(holderId, if held then Instance(Body, since, now, map[]) else IDLE)
    {
      var at := db.clock;
      var seen := db.lock;
      ghost var start := Instance(Acquiring(seen), at, at, map[]);
      ghost var s0 := db.World(holderId, IDLE);
      MyStep(cal, db.Rows(), db.others, holderId, IDLE, ReadLock);
      db.Yield(script.locking, cal, holderId, false, start);
      LockRun(cal, holderId, s0, script, db.World(holderId, start));
      MyStep(cal, db.Rows(), db.others, holderId, start, WriteLock);
      since, now := at, db.clock;
      if seen.None? {
        if db.lock.None? {
          db.lock := Some(Lock(holderId, at, at));
          return true, since, now;
        }
      } else if seen.value.holder == holderId {
        if db.lock.Some? {
          db.lock := Some(db.lock.value.(heartbeatAt := at));
          return true, since, now;
        }
      } else {
        var elapsed := at - seen.value.heartbeatAt;
        if elapsed > STALE_THRESHOLD && db.lock.Some? {
          db.lock := Some(Lock(holderId, at, at));
          return true, since, now;
        }
      }
      return false, since, now;
    }

    /** Reads the lock row and deletes the row there is, if the one it read is its own. */
    method ReleaseLock(actions: seq<Action>)
      modifies db
      ensures Exec(cal, old(db.World(holderId, IDLE)),
                   Acts(holderId, false, actions) + [By(holderId, Release(old(db.lock)))])
              == db.World(holderId, IDLE)
    {
      var row := db.lock;
      ghost var s0 := db.World(holderId, IDLE);
      db.Yield(actions, cal, holderId, false, IDLE);
      ExecLast(cal, s0, Acts(holderId, false, actions), By(holderId, Release(row)));
      MyStep(cal, db.Rows(), db.others, holderId, IDLE, Release(row));
      if row.Some? && row.value.holder == holderId && db.lock.Some? {
        db.lock := None;
      }
    }

    method HasActiveRun(reg: int) returns (active: bool)
      ensures active <==> HasActive(db.runs, reg)
    {
      var k := 0;
      while k < |db.runs|
        invariant 0 <= k <= |db.runs|
        invariant forall j :: 0 <= j < k ==> !(db.runs[j].reg == reg && db.runs[j].ended.None?)
      {
        if db.runs[k].reg == reg && db.runs[k].ended.None? { return true; }
        k := k + 1;
      }
      return false;
    }

    /** Launches the flow unless it is gone or has an active run. */
    method MaybeLaunch(session: Session, id: nat, now: Time, cause: Cause, turn: Turn) returns (ok: bool)
      requires id < |db.schedules| && session.now == now
      modifies db, session`dirty
      ensures LaunchDone(cal, holderId, old(db.Rows()), old(db.others), old(session.View()), id, cause, turn,
                         db.Rows(), db.others, session.View(), ok)
    {
      var reg := db.schedules[id].reg;
      if reg !in db.regs { return false; }
      var active := HasActiveRun(reg);
      if active { return false; }
      ghost var s0 := db.World(holderId, session.View().(pc := Checked(id, cause)));
      var run := InsertRun(session, id, now, cause, turn.checked);
      ghost var s1 := db.World(holderId, session.View().(pc := Inserted(id, run)));
      ok := SpawnFlow(session, id, run, turn);
      LaunchRun(cal, holderId, s0, turn, s1, db.World(holderId, AfterLaunch(session.View(), id, cause, ok)));
    }

    /** Adds the run row and commits it with everything the session has pending. */
    method InsertRun(session: Session, id: nat, now: Time, cause: Cause, actions: seq<Action>) returns (run: nat)
      requires id < |db.schedules| && session.now == now
      modifies db, session`dirty
      ensures SameSchedules(old(db.schedules), db.schedules)
      ensures run == |db.runs| - 1 && db.runs[run].pid.None? && db.runs[run].cause == Some(cause)
      ensures Exec(cal, old(db.World(holderId, session.View().(pc := Checked(id, cause)))),
                   Acts(holderId, true, actions) + [By(holderId, Insert)])
              == db.World(holderId, session.View().(pc := Inserted(id, run)))
      ensures Launches(db.runs) == Launches(old(db.runs))
    {
      ghost var start, db0 := session.View().(pc := Checked(id, cause)), db.Rows();
      ghost var s0 := db.World(holderId, start);
      db.Yield(actions, cal, holderId, true, start);
      ghost var db1 := db.Rows();
      ExecLast(cal, s0, Acts(holderId, true, actions), By(holderId, Insert));
      MyStep(cal, db1, db.others, holderId, start, Insert);
      SamePidsSameLaunches(db0.runs, db1.runs);
      run := |db.runs|;
      var rows := Flush(db.schedules, session.dirty);
      db.runs := db.runs + [Run(rows[id].reg, Some(id), now, None, None, None, Some(cause))];
      db.schedules := rows[id := rows[id].(lastTriggered := Some(now))];
      session.dirty := map[];
      assert db.runs[..run] == db1.runs;
    }

    /** Starts the child process: the run gets its pid, or is marked as failed. */
    method SpawnFlow(session: Session, id: nat, run: nat, turn: Turn) returns (ok: bool)
      requires run == |db.runs| - 1 && db.runs[run].pid.None? && db.runs[run].cause.Some?
      modifies db
      ensures db.schedules == old(db.schedules) && ok == turn.pid.Some?
      ensures Exec(cal, old(db.World(holderId, session.View().(pc := Inserted(id, run)))),
                   Acts(holderId, true, turn.inserted) + [By(holderId, Spawn(turn.pid))])
              == db.World(holderId, AfterLaunch(session.View(), id, old(db.runs)[run].cause.value, ok))
      ensures Launches(db.runs) == Launches(old(db.runs)) + if ok then 1 else 0
    {
      ghost var start, db0 := session.View().(pc := Inserted(id, run)), db.Rows();
      ghost var s0 := db.World(holderId, start);
      db.Yield(turn.inserted, cal, holderId, true, start);
      ExecLast(cal, s0, Acts(holderId, true, turn.inserted), By(holderId, Spawn(turn.pid)));
      MyStep(cal, db.Rows(), db.others, holderId, start, Spawn(turn.pid));
      ghost var runs1 := db.runs;
      SamePidsSameLaunches(db0.runs, runs1);
      SamePidsSameLaunches(db0.runs[..run], runs1[..run]);
      ok := turn.pid.Some?;
      if ok {
        db.runs := db.runs[run := db.runs[run].(pid := turn.pid)];
      } else {
        db.runs := db.runs[run := db.runs[run].(ended := Some(db.clock), success := Some(false))];
      }
      assert db.runs[..run] == runs1[..run];
    }

    /** One processor: query its schedules, read the clock, evaluate them one by one. */
    method ProcessSchedules(session: Session, kind: Kind, script: Script) returns (launched: nat)
      modifies db, session
      ensures PhaseDone(cal, holderId, old(db.World(holderId, session.View())), kind, script,
                        db.World(holderId, session.View()), launched)
    {
      ghost var s0 := db.World(holderId, session.View());
      var schedules := Query(db.schedules, kind);
      db.Yield(script.start(kind), cal, holderId, true, session.View());
      ghost var pass := Pass(cal, holderId, kind, schedules, script, s0);
      pass.Start(db.Rows(), db.others, session.View());
      var now := db.clock;
      session.now := now;
      ghost var acts := pass.Head();
      launched := 0;
      var k := 0;
      while k < |schedules|
        invariant 0 <= k <= |schedules|
        invariant kind.Interval? || kind.Cron? ==> session.now == now
        invariant pass.At(k, acts, db.World(holderId, session.View()), launched)
      {
        ghost var s1 := db.World(holderId, session.View());
        var ok;
        var id, turn := schedules[k], script.turn(kind, k);
        pass.Fits(k, acts, s1, launched);
        ok := Evaluate(session, kind, id, now, turn);
        pass.Next(k, acts, s1, launched, db.World(holderId, session.View()), ok);
        if ok { launched := launched + 1; }
        acts := acts + TurnActs(cal, holderId, s1, id, turn);
        k := k + 1;
      }
      pass.Done(acts, db.World(holderId, session.View()), launched);
    }

    method Evaluate(session: Session, kind: Kind, id: nat, now: Time, turn: Turn) returns (ok: bool)
      requires Evaluable(db.schedules, id, kind) && (kind.Interval? || kind.Cron? ==> session.now == now)
      modifies db, session
      ensures TurnDone(cal, holderId, old(db.World(holderId, session.View())), id, turn, db.World(holderId,
          session.View()), ok)
      ensures kind.Interval? || kind.Cron? ==> session.now == now
    {
      match kind {
        case Interval => ok := EvaluateInterval(session, id, now, turn);
        case Cron => ok := EvaluateCron(session, id, now, turn);
        case TableTrigger => ok := EvaluateTableTrigger(session, id, turn);
        case TableSet => ok := EvaluateTableSet(session, id, turn);
      }
    }

    /** The world acts before a schedule is looked at. */
    method Begin(session: Session, turn: Turn)
      modifies db
      ensures TurnBegun(cal, holderId, old(db.World(holderId, session.View())), turn, db.Rows(), db.others,
          session.View())
    {
      ghost var db0 := db.Rows();
      db.Yield(turn.before, cal, holderId, true, session.View());
      SamePidsSameLaunches(db0.runs, db.runs);
    }

    method EvaluateInterval(session: Session, id: nat, now: Time, turn: Turn) returns (ok: bool)
      requires Evaluable(db.schedules, id, Interval) && session.now == now
      modifies db, session
      ensures TurnDone(cal, holderId, old(db.World(holderId, session.View())), id, turn, db.World(holderId,
          session.View()), ok)
      ensures session.now == now
    {
      ghost var s0 := db.World(holderId, session.View());
      Begin(session, turn);
      ghost var db1, others1, n1 := db.Rows(), db.others, session.View();
      FitsAfter(s0.db.schedules, db1.schedules, id, Interval);
      var sched := SessionRow(db.Rows(), session.dirty, id);
      var due := sched.intervalSeconds.Some?;
      if due && sched.lastTriggered.Some? {
        var elapsed := now - sched.lastTriggered.value;
        var remaining := sched.intervalSeconds.value * SECOND - elapsed;
        due := remaining <= 0;
      }
      if !due {
        TurnIdle(cal, holderId, s0, id, turn, db1, others1, n1);
        return false;
      }
      ok := MaybeLaunch(session, id, now, ByInterval, turn);
      TurnLaunched(cal, holderId, s0, id, turn, db1, others1, n1, n1, ByInterval, db.Rows(), db.others,
          session.View(), ok);
    }

    /** The cursor is set to the local now, not to the slot, and committed separately. */
    method EvaluateCron(session: Session, id: nat, now: Time, turn: Turn) returns (ok: bool)
      requires Evaluable(db.schedules, id, Cron) && session.now == now
      modifies db, session
      ensures TurnDone(cal, holderId, old(db.World(holderId, session.View())), id, turn, db.World(holderId,
          session.View()), ok)
      ensures session.now == now
    {
      ghost var s0 := db.World(holderId, session.View());
      Begin(session, turn);
      ghost var db1, others1, n1 := db.Rows(), db.others, session.View();
      FitsAfter(s0.db.schedules, db1.schedules, id, Cron);
      var sched := SessionRow(db.Rows(), session.dirty, id);
      var slot := CronSlot(sched, now);
      if slot.None? {
        TurnIdle(cal, holderId, s0, id, turn, db1, others1, n1);
        return false;
      }
      ok := MaybeLaunch(session, id, now, slot.value, turn);
      if !ok {
        TurnLaunched(cal, holderId, s0, id, turn, db1, others1, n1, n1, slot.value, db.Rows(), db.others,
            session.View(), ok);
        return;
      }
      var here := cal.local(Zone(sched), now);
      ghost var due := session.View().(pc := CursorDue(id, here));
      ghost var db2, others2 := db.Rows(), db.others;
      db.Yield(turn.spawned, cal, holderId, true, due);
      SamePidsSameLaunches(db2.runs, db.runs);
      TurnFired(cal, holderId, s0, id, turn, db1, others1, n1, slot.value, db2, others2, session.View(),
          db.Rows(), db.others);
      db.schedules := db.schedules[id := db.schedules[id].(lastCronSlot := Some(here))];
    }

    /** The next slot after the cursor, the last run or the creation, if it is not in
        the future on the local clock. */
    method CronSlot(sched: Schedule, now: Time) returns (due: Option<Cause>)
      ensures due == CronDue(cal, sched, now)
    {
      if sched.cronExpression.None? || sched.cronExpression.value == "" || !cal.validZone(Zone(sched)) {
        return None;
      }
      var base := sched.lastCronSlot;
      if base.None? {
        var utc := if sched.lastTriggered.Some? then sched.lastTriggered else sched.createdAt;
        if utc.Some? { base := Some(cal.local(Zone(sched), utc.value)); }
      }
      if base.None? { return None; }
      var next := cal.next(sched.cronExpression.value, base.value);
      var here := cal.local(Zone(sched), now);
      if next.None? || next.value > here { return None; }
      due := Some(ByCron(base.value, next.value, here));
    }

    /** The new stamp is noted in the session before the active-run check. */
    method EvaluateTableTrigger(session: Session, id: nat, turn: Turn) returns (ok: bool)
      requires Evaluable(db.schedules, id, TableTrigger)
      modifies db, session
      ensures TurnDone(cal, holderId, old(db.World(holderId, session.View())), id, turn, db.World(holderId,
          session.View()), ok)
    {
      ghost var s0 := db.World(holderId, session.View());
      Begin(session, turn);
      ghost var db1, others1, n1 := db.Rows(), db.others, session.View();
      FitsAfter(s0.db.schedules, db1.schedules, id, TableTrigger);
      var sched := SessionRow(db.Rows(), session.dirty, id);
      var updated := if sched.triggerTable.Some? then Stamp(db.tables, sched.triggerTable.value) else None;
      if updated.None? || (sched.lastSeen.Some? && updated.value <= sched.lastSeen.value) {
        TurnIdle(cal, holderId, s0, id, turn, db1, others1, n1);
        return false;
      }
      var now := db.clock;
      session.now := now;
      session.dirty := session.dirty[id := updated.value];
      ghost var n2 := session.View();
      ok := MaybeLaunch(session, id, now, ByTable(updated.value), turn);
      TurnLaunched(cal, holderId, s0, id, turn, db1, others1, n1, n2, ByTable(updated.value), db.Rows(),
          db.others, session.View(), ok);
    }

    method EvaluateTableSet(session: Session, id: nat, turn: Turn) returns (ok: bool)
      requires Evaluable(db.schedules, id, TableSet)
      modifies db, session
      ensures TurnDone(cal, holderId, old(db.World(holderId, session.View())), id, turn, db.World(holderId,
          session.View()), ok)
    {
      ghost var s0 := db.World(holderId, session.View());
      Begin(session, turn);
      ghost var db1, others1, n1 := db.Rows(), db.others, session.View();
      FitsAfter(s0.db.schedules, db1.schedules, id, TableSet);
      var sched := SessionRow(db.Rows(), session.dirty, id);
      var allUpdated := false;
      if |sched.links| >= 2 { allUpdated := AllUpdated(sched); }
      if !allUpdated {
        TurnIdle(cal, holderId, s0, id, turn, db1, others1, n1);
        return false;
      }
      var now := db.clock;
      session.now := now;
      ghost var n2 := session.View();
      var stamps := Stamps(db.tables, sched.links);
      ok := MaybeLaunch(session, id, now, BySet(stamps), turn);
      TurnLaunched(cal, holderId, s0, id, turn, db1, others1, n1, n2, BySet(stamps), db.Rows(), db.others,
          session.View(), ok);
    }

    /** The inner loop over a schedule's linked tables, left at the first stale one. */
    method AllUpdated(sched: Schedule) returns (all: bool)
      ensures all <==> forall j :: 0 <= j < |sched.links| ==> Fresh(db.tables, sched.links[j], sched.lastTriggered)
    {
      all := true;
      var j := 0;
      while j < |sched.links| && all
        invariant 0 <= j <= |sched.links|
        invariant all ==> forall i :: 0 <= i < j ==> Fresh(db.tables, sched.links[i], sched.lastTriggered)
        invariant !all ==> exists i :: 0 <= i < j && !Fresh(db.tables, sched.links[i], sched.lastTriggered)
      {
        var updated := Stamp(db.tables, sched.links[j]);
        if updated.None? {
          all := false;
        } else if sched.lastTriggered.Some? && updated.value <= sched.lastTriggered.value {
          all := false;
        }
        j := j + 1;
      }
    }

    /** One tick: take the lock, run the four processors, drop what was not committed.
        The system ends where the actions of `TickActs` take it, and `launched` is the
        number of runs that were spawned once the lock was taken. */
    method Tick(script: Script) returns (held: bool, launched: nat, ghost acts: seq<Action>)
      modifies db
      ensures acts == TickActs(cal, holderId, old(db.World(holderId, IDLE)), script)
      ensures Exec(cal, old(db.World(holderId, IDLE)), acts) == db.World(holderId, IDLE)
      ensures var locked := Exec(cal, old(db.World(holderId, IDLE)), LockActs(holderId, script));
              Launches(db.runs) == Launches(locked.db.runs) + launched && (held <==> Pc(locked, holderId).Body?)
    {
      ghost var s0 := db.World(holderId, IDLE);
      ghost var since, now;
      held, since, now := AcquireLock(script);
      acts := LockActs(holderId, script);
      launched := 0;
      if !held { return; }
      var session := new Session(since, now);
      ghost var s1 := db.World(holderId, session.View());
      ghost var body := PhasesActs(cal, holderId, s1, PHASES, script);
      launched := RunProcessors(session, script);
      ExecConcat(cal, s0, acts, body);
      acts := acts + body;
    }

    /** The four processors, and the end of the session. */
    method RunProcessors(session: Session, script: Script) returns (launched: nat)
      modifies db, session
      ensures BodyDone(cal, holderId, old(db.World(holderId, session.View())), script, db.World(holderId, IDLE),
          launched)
    {
      ghost var s1 := db.World(holderId, session.View());
      var byInterval := ProcessSchedules(session, Interval, script);
      ghost var s2 := db.World(holderId, session.View());
      var byCron := ProcessSchedules(session, Cron, script);
      ghost var s3 := db.World(holderId, session.View());
      var byTable := ProcessSchedules(session, TableTrigger, script);
      ghost var s4 := db.World(holderId, session.View());
      var bySet := ProcessSchedules(session, TableSet, script);
      BodyRun(cal, holderId, s1, s2, s3, s4, db.Rows(), db.others, session.View(), script, byInterval, byCron,
          byTable, bySet);
      launched := byInterval + byCron + byTable + bySet;
    }

    /** One tick, then the lock is given back: never in the middle of its own tick. */
    method RunOnce(script: Script, releasing: seq<Action>)
      modifies db
      ensures var s := old(db.World(holderId, IDLE));
              var tick := TickActs(cal, holderId, s, script);
              var row := Exec(cal, s, tick).db.lock;
              Exec(cal, s, tick + (Acts(holderId, false, releasing) + [By(holderId, Release(row))]))
              == db.World(holderId, IDLE)
    {
      ghost var s0 := db.World(holderId, IDLE);
      var _, _, tick := Tick(script);
      ghost var row := db.lock;
      ExecConcat(cal, s0, tick, Acts(holderId, false, releasing) + [By(holderId, Release(row))]);
      ReleaseLock(releasing);
    }
  }

  /** Where a launch leaves the instance. */
  function AfterLaunch(n: Instance, id: nat, cause: Cause, ok: bool): Instance {
    n.(pc := if ok && cause.ByCron? then CursorDue(id, cause.cursor) else Body)
  }

  predicate Evaluable(schedules: seq<Schedule>, id: nat, kind: Kind) {
    id < |schedules| && schedules[id].enabled && schedules[id].kind == kind
  }

  /** What evaluating one schedule is proved to do. */
  ghost predicate TurnDone(cal: Calendar, me: int, s: Sys, id: nat, t: Turn, s': Sys, ok: bool) {
    && Exec(cal, s, TurnActs(cal, me, s, id, t)) == s'
    && SameSchedules(s.db.schedules, s'.db.schedules)
    && Launches(s'.db.runs) == Launches(s.db.runs) + if ok then 1 else 0
  }

  /** What one processor is proved to do. */
  ghost predicate PhaseDone(cal: Calendar, me: int, s: Sys, kind: Kind, script: Script, s': Sys, launched: nat) {
    && Exec(cal, s, PhaseActs(cal, me, s, kind, script)) == s'
    && Launches(s'.db.runs) == Launches(s.db.runs) + launched
  }

  /** What the body of a tick, with the end of the session, is proved to do. */
  ghost predicate BodyDone(cal: Calendar, me: int, s: Sys, script: Script, s': Sys, launched: nat) {
    && Exec(cal, s, PhasesActs(cal, me, s, PHASES, script)) == s'
    && Launches(s'.db.runs) == Launches(s.db.runs) + launched
  }

  lemma Reassociate(a: seq<Action>, b: seq<Action>, c: seq<Action>)
    ensures a + (b + c) == (a + b) + c
  {
  }

  /** One processor's loop: its fixed data, and the system it started in. */
  datatype Pass = Pass(cal: Calendar, me: int, kind: Kind, ids: seq<nat>, script: Script, s0: Sys) {
    ghost function Head(): seq<Action> {
      Acts(me, true, script.start(kind)) + [By(me, ReadClock)]
    }

    /** What is left to do from schedule `k` on. */
    ghost function Rest(k: nat, s: Sys): seq<Action> {
      if k <= |ids| then LoopActs(cal, me, s, kind, ids, k, script) else []
    }

    /** The loop stands before schedule `k`. */
    ghost predicate At(k: nat, acts: seq<Action>, s: Sys, launched: nat) {
      && ids == Query(s0.db.schedules, kind)
      && SameSchedules(s0.db.schedules, s.db.schedules)
      && Exec(cal, s0, acts) == s
      && acts + Rest(k, s) == PhaseActs(cal, me, s0, kind, script)
      && Launches(s.db.runs) == Launches(s0.db.runs) + launched
    }

    lemma Start(db: Db, others: Others, n: Instance)
      requires ids == Query(s0.db.schedules, kind) && n.pc.Body?
      requires Exec(cal, s0, Acts(me, true, script.start(kind))) == Around(db, others, me, n)
      requires db.schedules == s0.db.schedules && SamePids(s0.db.runs, db.runs)
      ensures At(0, Head(), Around(db, others, me, n.(now := db.clock)), 0)
    {
      SamePidsSameLaunches(s0.db.runs, db.runs);
      ExecLast(cal, s0, Acts(me, true, script.start(kind)), By(me, ReadClock));
      MyStep(cal, db, others, me, n, ReadClock);
    }

    lemma Done(acts: seq<Action>, s: Sys, launched: nat)
      requires At(|ids|, acts, s, launched)
      ensures PhaseDone(cal, me, s0, kind, script, s, launched)
    {
      assert acts + [] == acts;
    }

    lemma Fits(k: nat, acts: seq<Action>, s: Sys, launched: nat)
      requires k < |ids| && At(k, acts, s, launched)
      ensures Evaluable(s.db.schedules, ids[k], kind)
    {
      assert ids[k] in ids;
      assert SameDefinition(s0.db.schedules[ids[k]], s.db.schedules[ids[k]]);
    }

    lemma Next(k: nat, acts: seq<Action>, s: Sys, launched: nat, s': Sys, ok: bool)
      requires k < |ids| && At(k, acts, s, launched)
      requires TurnDone(cal, me, s, ids[k], script.turn(kind, k), s', ok)
      ensures var turn := TurnActs(cal, me, s, ids[k], script.turn(kind, k));
              At(k + 1, acts + turn, s', launched + if ok then 1 else 0)
    {
      var turn := TurnActs(cal, me, s, ids[k], script.turn(kind, k));
      ExecConcat(cal, s0, acts, turn);
      Reassociate(acts, turn, Rest(k + 1, s'));
      assert SameSchedules(s0.db.schedules, s'.db.schedules) by {
        SameSchedulesTrans(s0.db.schedules, s.db.schedules, s'.db.schedules);
      }
    }
  }

  lemma SameSchedulesTrans(a: seq<Schedule>, b: seq<Schedule>, c: seq<Schedule>)
    requires SameSchedules(a, b) && SameSchedules(b, c)
    ensures SameSchedules(a, c)
  {
  }

  ghost predicate SameSchedules(before: seq<Schedule>, after: seq<Schedule>) {
    |before| == |after| && forall id :: 0 <= id < |before| ==> SameDefinition(before[id], after[id])
  }

  /** Glue: the actions of the lock code, of a launch, of a turn. */
  lemma LockRun(cal: Calendar, me: int, s: Sys, script: Script, s': Sys)
    requires Exec(cal, Apply(cal, s, By(me, ReadLock)), Acts(me, false, script.locking)) == s'
    ensures Exec(cal, s, LockActs(me, script)) == Apply(cal, s', By(me, WriteLock))
  {
    ExecLast(cal, s, [By(me, ReadLock)] + Acts(me, false, script.locking), By(me, WriteLock));
    ExecCons(cal, s, By(me, ReadLock), Acts(me, false, script.locking));
  }

  lemma LaunchRun(cal: Calendar, me: int, s: Sys, t: Turn, s1: Sys, s2: Sys)
    requires Exec(cal, s, Acts(me, true, t.checked) + [By(me, Insert)]) == s1
    requires Exec(cal, s1, Acts(me, true, t.inserted) + [By(me, Spawn(t.pid))]) == s2
    ensures Exec(cal, s, LaunchActs(me, t)) == s2
  {
    var a, b := Acts(me, true, t.checked) + [By(me, Insert)], Acts(me, true, t.inserted) + [By(me, Spawn(t.pid))];
    ExecConcat(cal, s, a, b);
    assert LaunchActs(me, t) == a + b;
  }

  /** The world has acted, and the instance stands where it stood. */
  ghost predicate TurnBegun(cal: Calendar, me: int, s0: Sys, t: Turn, db1: Db, others1: Others, n: Instance) {
    && n.pc.Body? && Exec(cal, s0, Acts(me, true, t.before)) == Around(db1, others1, me, n)
    && s0.db.schedules == db1.schedules && Launches(s0.db.runs) == Launches(db1.runs)
  }

  /** What checking and launching is proved to do. */
  ghost predicate LaunchDone(cal: Calendar, me: int, db: Db, others: Others, n: Instance, id: nat,
                             cause: Cause, t: Turn, db': Db, others': Others, n': Instance, ok: bool) {
    && id < |db.schedules| && SameSchedules(db.schedules, db'.schedules) && n'.pc.Body?
    && Launches(db'.runs) == Launches(db.runs) + (if ok then 1 else 0)
    && n'.now == n.now
    && if CanLaunch(db, db.schedules[id].reg) then
         && ok == t.pid.Some?
         && Exec(cal, Around(db, others, me, n.(pc := Checked(id, cause))), LaunchActs(me, t))
            == Around(db', others', me, AfterLaunch(n', id, cause, ok))
       else !ok && (db', others', n') == (db, others, n)
  }

  lemma FitsAfter(before: seq<Schedule>, after: seq<Schedule>, id: nat, kind: Kind)
    requires before == after && Evaluable(before, id, kind)
    ensures Evaluable(after, id, kind)
  {
  }

  lemma TurnHead(cal: Calendar, me: int, s0: Sys, id: nat, t: Turn, db1: Db, others1: Others, n: Instance)
    requires TurnBegun(cal, me, s0, t, db1, others1, n)
    ensures Exec(cal, s0, Acts(me, true, t.before) + [By(me, Evaluate(id))])
            == Around(db1, others1, me, EvaluateStep(cal, db1, n, id))
  {
    ExecLast(cal, s0, Acts(me, true, t.before), By(me, Evaluate(id)));
    MyStep(cal, db1, others1, me, n, Evaluate(id));
  }

  /** A schedule that is not due. */
  lemma TurnIdle(cal: Calendar, me: int, s0: Sys, id: nat, t: Turn, db1: Db, others1: Others, n: Instance)
    requires TurnBegun(cal, me, s0, t, db1, others1, n) && EvaluateStep(cal, db1, n, id) == n
    ensures TurnDone(cal, me, s0, id, t, Around(db1, others1, me, n), false)
  {
    TurnHead(cal, me, s0, id, t, db1, others1, n);
  }

  /** A due schedule, launched or not, that has no cursor to save. */
  lemma TurnLaunched(cal: Calendar, me: int, s0: Sys, id: nat, t: Turn, db1: Db, others1: Others, n: Instance,
                     m: Instance, cause: Cause, db2: Db, others2: Others, n2: Instance, ok: bool)
    requires TurnBegun(cal, me, s0, t, db1, others1, n) && m.pc.Body?
    requires LaunchDone(cal, me, db1, others1, m, id, cause, t, db2, others2, n2, ok) && !(ok && cause.ByCron?)
    requires EvaluateStep(cal, db1, n, id) ==
             m.(pc := if CanLaunch(db1, db1.schedules[id].reg) then Checked(id, cause) else Body)
    ensures TurnDone(cal, me, s0, id, t, Around(db2, others2, me, n2), ok)
  {
    TurnHead(cal, me, s0, id, t, db1, others1, n);
    ExecConcat(cal, s0, Acts(me, true, t.before) + [By(me, Evaluate(id))], LaunchActs(me, t));
  }

  /** A cron turn that fires: the cursor is saved after the run was committed. */
  lemma TurnFired(cal: Calendar, me: int, s0: Sys, id: nat, t: Turn, db1: Db, others1: Others, n: Instance,
                  cause: Cause, db2: Db, others2: Others, n2: Instance, db3: Db, others3: Others)
    requires TurnBegun(cal, me, s0, t, db1, others1, n) && cause.ByCron?
    requires LaunchDone(cal, me, db1, others1, n, id, cause, t, db2, others2, n2, true)
    requires EvaluateStep(cal, db1, n, id) ==
             n.(pc := if CanLaunch(db1, db1.schedules[id].reg) then Checked(id, cause) else Body)
    requires var due := n2.(pc := CursorDue(id, cause.cursor));
             Exec(cal, Around(db2, others2, me, due), Acts(me, true, t.spawned)) == Around(db3, others3, me, due)
    requires db2.schedules == db3.schedules && Launches(db2.runs) == Launches(db3.runs)
    ensures id < |db3.schedules|
    ensures var saved := db3.(schedules := db3.schedules[id := db3.schedules[id].(lastCronSlot := Some(cause.cursor))]);
            TurnDone(cal, me, s0, id, t, Around(saved, others3, me, n2), true)
  {
    var due := n2.(pc := CursorDue(id, cause.cursor));
    TurnSaved(cal, me, s0, id, t, db1, others1, n, n.(pc := Checked(id, cause)), db2, others2, due, db3, others3);
    var saved := db3.(schedules := db3.schedules[id := db3.schedules[id].(lastCronSlot := Some(cause.cursor))]);
    assert SameSchedules(db3.schedules, saved.schedules);
    SameSchedulesTrans(db1.schedules, db2.schedules, saved.schedules);
  }

  lemma TurnSaved(cal: Calendar, me: int, s0: Sys, id: nat, t: Turn, db1: Db, others1: Others, n: Instance,
                  m: Instance, db2: Db, others2: Others, due: Instance, db3: Db, others3: Others)
    requires TurnBegun(cal, me, s0, t, db1, others1, n)
    requires EvaluateStep(cal, db1, n, id) == m && m.pc.Checked? && due.pc.CursorDue?
    requires Exec(cal, Around(db1, others1, me, m), LaunchActs(me, t)) == Around(db2, others2, me, due)
    requires Exec(cal, Around(db2, others2, me, due), Acts(me, true, t.spawned)) == Around(db3, others3, me, due)
    ensures var (db', n') := SaveCursorStep(db3, due);
            Exec(cal, s0, TurnActs(cal, me, s0, id, t)) == Around(db', others3, me, n')
  {
    var head := Acts(me, true, t.before) + [By(me, Evaluate(id))];
    TurnHead(cal, me, s0, id, t, db1, others1, n);
    ExecConcat(cal, s0, head, LaunchActs(me, t));
    ExecConcat(cal, s0, head + LaunchActs(me, t), Acts(me, true, t.spawned) + [By(me, SaveCursor)]);
    ExecLast(cal, Around(db2, others2, me, due), Acts(me, true, t.spawned), By(me, SaveCursor));
    MyStep(cal, db3, others3, me, due, SaveCursor);
  }

  lemma TickEnds(cal: Calendar, me: int, db: Db, others: Others, n: Instance)
    requires n.pc.Body?
    ensures Exec(cal, Around(db, others, me, n), [By(me, EndTick)]) == Around(db, others, me, IDLE)
  {
    ExecLast(cal, Around(db, others, me, n), [], By(me, EndTick));
    assert [] + [By(me, EndTick)] == [By(me, EndTick)];
    MyStep(cal, db, others, me, n, EndTick);
  }

  /** The four processors in a row. */
  lemma PhasesRun(cal: Calendar, me: int, s1: Sys, s2: Sys, s3: Sys, s4: Sys, s5: Sys, script: Script,
                  a: nat, b: nat, c: nat, d: nat)
    requires PhaseDone(cal, me, s1, Interval, script, s2, a)
    requires PhaseDone(cal, me, s2, Cron, script, s3, b)
    requires PhaseDone(cal, me, s3, TableTrigger, script, s4, c)
    requires PhaseDone(cal, me, s4, TableSet, script, s5, d)
    ensures Exec(cal, s1, PhasesActs(cal, me, s1, PHASES, script)) == Exec(cal, s5, [By(me, EndTick)])
  {
    PhasesCons(cal, me, s1, s2, PHASES, script, a);
    PhasesCons(cal, me, s2, s3, [Cron, TableTrigger, TableSet], script, b);
    PhasesCons(cal, me, s3, s4, [TableTrigger, TableSet], script, c);
    PhasesCons(cal, me, s4, s5, [TableSet], script, d);
    assert PHASES[1..] == [Cron, TableTrigger, TableSet];
    assert [Cron, TableTrigger, TableSet][1..] == [TableTrigger, TableSet];
    assert [TableTrigger, TableSet][1..] == [TableSet];
    assert [TableSet][1..] == [];
  }

  /** The four processors, and the end of the tick. */
  lemma BodyRun(cal: Calendar, me: int, s1: Sys, s2: Sys, s3: Sys, s4: Sys, db5: Db, others5: Others,
                n5: Instance, script: Script, a: nat, b: nat, c: nat, d: nat)
    requires n5.pc.Body?
    requires PhaseDone(cal, me, s1, Interval, script, s2, a)
    requires PhaseDone(cal, me, s2, Cron, script, s3, b)
    requires PhaseDone(cal, me, s3, TableTrigger, script, s4, c)
    requires PhaseDone(cal, me, s4, TableSet, script, Around(db5, others5, me, n5), d)
    ensures BodyDone(cal, me, s1, script, Around(db5, others5, me, IDLE), a + b + c + d)
  {
    PhasesRun(cal, me, s1, s2, s3, s4, Around(db5, others5, me, n5), script, a, b, c, d);
    TickEnds(cal, me, db5, others5, n5);
  }

  lemma PhasesCons(cal: Calendar, me: int, s: Sys, s': Sys, kinds: seq<Kind>, script: Script, launched: nat)
    requires kinds != []
    requires PhaseDone(cal, me, s, kinds[0], script, s', launched)
    ensures Exec(cal, s, PhasesActs(cal, me, s, kinds, script))
            == Exec(cal, s', PhasesActs(cal, me, s', kinds[1..], script))
  {
    var head := PhaseActs(cal, me, s, kinds[0], script);
    ExecConcat(cal, s, head, PhasesActs(cal, me, s', kinds[1..], script));
  }
}
