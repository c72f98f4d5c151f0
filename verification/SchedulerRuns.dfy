/**
 What a disciplined run of the scheduler leaves in the run table: never two active
 runs of one flow, and every run explained by something its predecessor did not use.
 */
module SchedulerRuns {
  import opened Wrappers
  import opened SchedulerModel
  import opened SchedulerLease

  // --- at most one active run per registration ---

  /** The active-run check still holds when the row is inserted. */
  ghost predicate ActiveNodeOk(db: Db, n: Instance) {
    && (n.pc.Checked? ==> n.pc.id < |db.schedules| && !HasActive(db.runs, db.schedules[n.pc.id].reg))
    && (n.pc.Inserted? ==> n.pc.id < |db.schedules| && n.pc.run < |db.runs|)
    && (n.pc.CursorDue? ==> n.pc.id < |db.schedules|)
  }

  ghost predicate ActiveInv(s: Sys) {
    && AtMostOneActive(s.db.runs)
    && forall i :: i in s.nodes ==> ActiveNodeOk(s.db, s.nodes[i])
  }

  /** Runs keep their registration, only `Insert` starts one, and ended runs stay ended. */
  ghost predicate OnlyEnds(before: seq<Run>, after: seq<Run>) {
    && |before| == |after|
    && forall k :: 0 <= k < |before| ==>
         before[k].reg == after[k].reg && (after[k].ended.None? ==> before[k].ended.None?)
  }

  ghost predicate SameRegs(before: seq<Schedule>, after: seq<Schedule>) {
    |before| == |after| && forall k :: 0 <= k < |before| ==> before[k].reg == after[k].reg
  }

  lemma EndingKeepsInactive(before: seq<Run>, after: seq<Run>, reg: int)
    requires OnlyEnds(before, after) && !HasActive(before, reg)
    ensures !HasActive(after, reg)
  {
  }

  lemma StepOnlyEnds(cal: Calendar, me: int, db: Db, n: Instance, op: Op)
    ensures var (db', _) := Step(cal, me, db, n, op);
            SameRegs(db.schedules, db'.schedules) &&
            (!(op.Insert? && n.pc.Checked?) ==> OnlyEnds(db.runs, db'.runs))
  {
  }

  lemma OnlyEndsKeepsNode(db: Db, db': Db, n: Instance)
    requires OnlyEnds(db.runs, db'.runs) && SameRegs(db.schedules, db'.schedules) && ActiveNodeOk(db, n)
    ensures ActiveNodeOk(db', n)
  {
    if n.pc.Checked? { EndingKeepsInactive(db.runs, db'.runs, db.schedules[n.pc.id].reg); }
  }

  lemma OneMoreActive(runs: seq<Run>, run: Run)
    requires AtMostOneActive(runs) && !HasActive(runs, run.reg)
    ensures AtMostOneActive(runs + [run])
  {
  }

  lemma ActorStaysActiveOk(cal: Calendar, me: int, db: Db, n: Instance, op: Op)
    requires ActiveNodeOk(db, n) && !(op.Insert? && n.pc.Checked?)
    ensures var (db', n') := Step(cal, me, db, n, op); ActiveNodeOk(db', n')
  {
    var (db', n') := Step(cal, me, db, n, op);
    StepOnlyEnds(cal, me, db, n, op);
    OnlyEndsKeepsNode(db, db', n);
  }

  lemma ActiveStep(cal: Calendar, s: Sys, a: Action)
    requires LeaseInv(s) && ActiveInv(s) && LeaseInv(Apply(cal, s, a))
    ensures ActiveInv(Apply(cal, s, a))
  {
    if a.who in s.nodes {
      var t := Apply(cal, s, a);
      var n := s.nodes[a.who];
      StepOnlyEnds(cal, a.who, s.db, n, a.op);
      if a.op.Insert? && n.pc.Checked? {
        OneMoreActive(s.db.runs, t.db.runs[|s.db.runs|]);
        forall i | i in s.nodes && i != a.who ensures ActiveNodeOk(t.db, t.nodes[i]) {
          assert !Inside(s.nodes[i]);
        }
      } else {
        ActorStaysActiveOk(cal, a.who, s.db, n, a.op);
        forall i | i in s.nodes && i != a.who ensures ActiveNodeOk(t.db, t.nodes[i]) {
          OnlyEndsKeepsNode(s.db, t.db, s.nodes[i]);
        }
      }
    }
  }

  /** However many instances tick, whatever fails to spawn, whoever crashes or takes
      over, and whenever children finish: one flow never has two active runs. */
  lemma {:induction false} OneActiveRunPerFlow(cal: Calendar, s: Sys, run: seq<Action>)
    requires LeaseInv(s) && ActiveInv(s) && DisciplinedRun(cal, s, run)
    ensures ActiveInv(Exec(cal, s, run))
    decreases |run|
  {
    if run != [] {
      LeaseStep(cal, s, run[0]);
      ActiveStep(cal, s, run[0]);
      OneActiveRunPerFlow(cal, Apply(cal, s, run[0]), run[1..]);
    }
  }

  // --- what triggered each run ---

  ghost predicate Happened(tables: map<int, seq<Time>>, t: int, stamp: Time) {
    t in tables && stamp in tables[t]
  }

  /** A scheduled run carries evidence its schedule's row accounts for. */
  ghost predicate Explained(db: Db, r: Run)
    requires r.schedule.Some?
  {
    && r.schedule.value < |db.schedules|
    && r.cause.Some?
    && var sc := db.schedules[r.schedule.value];
    && sc.lastTriggered.Some? && r.started <= sc.lastTriggered.value
    && match r.cause.value
       case ByInterval => sc.kind.Interval? && sc.intervalSeconds.Some?
       case ByCron(_, _, _) => sc.kind.Cron?
       case ByTable(stamp) =>
         && sc.kind.TableTrigger? && sc.triggerTable.Some?
         && Happened(db.tables, sc.triggerTable.value, stamp)
         && sc.lastSeen.Some? && stamp <= sc.lastSeen.value
       case BySet(stamps) =>
         && sc.kind.TableSet? && |stamps| == |sc.links|
         && forall j :: 0 <= j < |stamps| ==> Happened(db.tables, sc.links[j], stamps[j]) && stamps[j] <= r.started
  }

  /** Run `b` came later than run `a` of the same schedule, and on new grounds. */
  ghost predicate Follows(db: Db, a: Run, b: Run)
    requires a.schedule.Some? && b.schedule == a.schedule && Explained(db, a) && Explained(db, b)
  {
    && a.started <= b.started
    && match b.cause.value
       case ByInterval => b.started - a.started >= db.schedules[b.schedule.value].intervalSeconds.value * SECOND
       case ByCron(_, _, _) => true
       case ByTable(stamp) => a.cause.value.stamp < stamp
       case BySet(stamps) => forall j :: 0 <= j < |stamps| ==> a.started < stamps[j]
  }

  /** The verdict an instance carries between its check and its insert. */
  ghost predicate Justified(db: Db, now: Time, dirty: Dirty, id: nat, cause: Cause) {
    && id < |db.schedules|
    && var sc := db.schedules[id];
    && match cause
       case ByInterval =>
         && sc.kind.Interval? && sc.intervalSeconds.Some?
         && (sc.lastTriggered.Some? ==> now - sc.lastTriggered.value >= sc.intervalSeconds.value * SECOND)
       case ByCron(_, _, _) => sc.kind.Cron?
       case ByTable(stamp) =>
         && sc.kind.TableTrigger? && sc.triggerTable.Some?
         && Happened(db.tables, sc.triggerTable.value, stamp)
         && id in dirty && dirty[id] == stamp
         && (sc.lastSeen.Some? ==> sc.lastSeen.value < stamp)
       case BySet(stamps) =>
         && sc.kind.TableSet? && |stamps| == |sc.links|
         && forall j :: 0 <= j < |stamps| ==>
              && Happened(db.tables, sc.links[j], stamps[j])
              && stamps[j] <= now
              && (sc.lastTriggered.Some? ==> sc.lastTriggered.value < stamps[j])
  }

  /** Uncommitted cursors are real stamps, at least as new as the committed ones. */
  ghost predicate DirtyOk(db: Db, dirty: Dirty) {
    forall id :: id in dirty ==>
      && id < |db.schedules|
      && db.schedules[id].triggerTable.Some?
      && Stamp(db.tables, db.schedules[id].triggerTable.value).Some?
      && dirty[id] <= Stamp(db.tables, db.schedules[id].triggerTable.value).value
      && (db.schedules[id].lastSeen.Some? ==> db.schedules[id].lastSeen.value <= dirty[id])
  }

  ghost predicate RowsOk(db: Db) {
    && (forall id :: 0 <= id < |db.schedules| ==> ScheduleOk(db, db.schedules[id]))
    && (forall t :: t in db.tables ==> HistoryOk(db.tables[t], db.clock))
  }

  ghost predicate RunsOk(db: Db) {
    && (forall a :: 0 <= a < |db.runs| && db.runs[a].schedule.Some? ==> Explained(db, db.runs[a]))
    && (forall a, b :: 0 <= a < b < |db.runs| && db.runs[a].schedule.Some? && db.runs[b].schedule == db.runs[a].schedule
          ==> Follows(db, db.runs[a], db.runs[b]))
  }

  ghost predicate NodeOk(db: Db, n: Instance) {
    && DirtyOk(db, n.dirty)
    && (!Inside(n) ==> n.dirty == map[])
    && (Inside(n) ==> forall id :: 0 <= id < |db.schedules| && db.schedules[id].lastTriggered.Some? ==>
          db.schedules[id].lastTriggered.value <= n.now)
    && (n.pc.Checked? ==> Justified(db, n.now, n.dirty, n.pc.id, n.pc.cause))
  }

  ghost predicate HistoryInv(s: Sys) {
    && RowsOk(s.db)
    && RunsOk(s.db)
    && forall i :: i in s.nodes ==> NodeOk(s.db, s.nodes[i])
  }

  /** A verdict that leads past the check rests on evidence the rows account for. */
  lemma EvaluateJustifies(cal: Calendar, db: Db, n: Instance, id: nat)
    requires n.pc.Body? && NodeOk(db, n) && RowsOk(db) && n.now <= db.clock
    ensures NodeOk(db, EvaluateStep(cal, db, n, id))
  {
    if id < |db.schedules| {
      var sc := SessionRow(db, n.dirty, id);
      var m := EvaluateStep(cal, db, n, id);
      assert db.schedules[id] == sc.(lastSeen := db.schedules[id].lastSeen);
      if m.pc.Checked? {
        match m.pc.cause
        case ByInterval =>
        case ByCron(_, _, _) =>
        case ByTable(stamp) =>
        case BySet(stamps) =>
      }
    }
  }

  /** How the rows a run's evidence lives on may develop. */
  ghost predicate Forward(db: Db, db': Db) {
    && |db.schedules| == |db'.schedules|
    && (forall id :: 0 <= id < |db.schedules| ==> ScheduleForward(db.schedules[id], db'.schedules[id]))
    && forall t, stamp :: Happened(db.tables, t, stamp) ==> Happened(db'.tables, t, stamp)
  }

  ghost predicate ScheduleForward(sc: Schedule, sc': Schedule) {
    && sc'.(lastTriggered := sc.lastTriggered, lastSeen := sc.lastSeen, lastCronSlot := sc.lastCronSlot) == sc
    && Later(sc.lastTriggered, sc'.lastTriggered)
    && Later(sc.lastSeen, sc'.lastSeen)
  }

  predicate Later(a: Option<Time>, b: Option<Time>) {
    a.Some? ==> b.Some? && a.value <= b.value
  }

  /** A run row may only change its outcome. */
  ghost predicate SameLaunch(r: Run, r': Run) {
    r'.(ended := r.ended, success := r.success, pid := r.pid) == r
  }

  ghost predicate GoesForward(db: Db, db': Db) {
    && Forward(db, db')
    && RowsOk(db')
    && |db.runs| <= |db'.runs|
    && forall a :: 0 <= a < |db.runs| ==> SameLaunch(db.runs[a], db'.runs[a])
  }

  lemma EnvGoesForward(db: Db, e: Event)
    requires RowsOk(db)
    ensures GoesForward(db, EnvStep(db, e))
  {
    var db' := EnvStep(db, e);
    forall t | t in db'.tables ensures HistoryOk(db'.tables[t], db'.clock) {
      assert HistoryOk(db.tables[t], db.clock);
    }
    forall id | 0 <= id < |db.schedules| ensures ScheduleOk(db', db'.schedules[id]) {
      assert ScheduleOk(db, db.schedules[id]);
    }
  }

  lemma InsertGoesForward(db: Db, n: Instance)
    requires n.pc.Checked? && NodeOk(db, n) && RowsOk(db) && n.now <= db.clock
    ensures GoesForward(db, InsertStep(db, n).0)
  {
    var db' := InsertStep(db, n).0;
    forall id | 0 <= id < |db.schedules|
      ensures ScheduleForward(db.schedules[id], db'.schedules[id]) && ScheduleOk(db', db'.schedules[id])
    {
      assert ScheduleOk(db, db.schedules[id]);
    }
  }

  lemma RestGoesForward(cal: Calendar, me: int, db: Db, n: Instance, op: Op)
    requires RowsOk(db) && !op.Insert? && !op.Env?
    ensures GoesForward(db, Step(cal, me, db, n, op).0)
  {
    var db' := Step(cal, me, db, n, op).0;
    forall id | 0 <= id < |db.schedules|
      ensures ScheduleForward(db.schedules[id], db'.schedules[id]) && ScheduleOk(db', db'.schedules[id])
    {
      assert ScheduleOk(db, db.schedules[id]);
    }
  }

  lemma ForwardKeepsPair(db: Db, db': Db, a: Run, b: Run, a': Run, b': Run)
    requires Forward(db, db') && SameLaunch(a, a') && SameLaunch(b, b')
    requires a.schedule.Some? && b.schedule == a.schedule && Explained(db, a) && Explained(db, b)
    ensures Explained(db', a') && Explained(db', b')
    ensures Follows(db, a, b) <==> Follows(db', a', b')
  {
    assert ScheduleForward(db.schedules[a.schedule.value], db'.schedules[a.schedule.value]);
  }

  /** The new run is explained, and follows every earlier run of its schedule. */
  lemma InsertExplains(db: Db, n: Instance)
    requires n.pc.Checked? && NodeOk(db, n) && RowsOk(db)
    ensures var (db', m) := InsertStep(db, n);
            db'.runs[|db.runs|].schedule == Some(n.pc.id) && Explained(db', db'.runs[|db.runs|])
  {
  }

  lemma InsertFollows(db: Db, n: Instance, a: Run)
    requires n.pc.Checked? && NodeOk(db, n) && RowsOk(db) && n.now <= db.clock
    requires a.schedule == Some(n.pc.id) && Explained(db, a)
    ensures var db' := InsertStep(db, n).0;
            Explained(db', a) && Explained(db', db'.runs[|db.runs|]) && Follows(db', a, db'.runs[|db.runs|])
  {
    var id := n.pc.id;
    assert db.schedules[id].lastTriggered.value <= n.now;
    InsertExplains(db, n);
    InsertGoesForward(db, n);
    ForwardKeepsPair(db, InsertStep(db, n).0, a, a, a, a);
  }

  lemma ForwardKeepsRunsOk(db: Db, db': Db)
    requires RunsOk(db) && GoesForward(db, db') && |db'.runs| == |db.runs|
    ensures RunsOk(db')
  {
    forall a, b |
      0 <= a <= b < |db.runs| && db'.runs[a].schedule.Some? && db'.runs[b].schedule == db'.runs[a].schedule
      ensures Explained(db', db'.runs[a]) && Explained(db', db'.runs[b])
      ensures a < b ==> Follows(db', db'.runs[a], db'.runs[b])
    {
      assert SameLaunch(db.runs[a], db'.runs[a]) && SameLaunch(db.runs[b], db'.runs[b]);
      ForwardKeepsPair(db, db', db.runs[a], db.runs[b], db'.runs[a], db'.runs[b]);
    }
  }

  lemma InsertKeepsRunsOk(db: Db, n: Instance)
    requires n.pc.Checked? && NodeOk(db, n) && RowsOk(db) && RunsOk(db) && n.now <= db.clock
    ensures RunsOk(InsertStep(db, n).0)
  {
    var db' := InsertStep(db, n).0;
    InsertGoesForward(db, n);
    ForwardKeepsRunsOk(db, db'.(runs := db.runs));
    InsertExplains(db, n);
    forall a, b |
      0 <= a <= b < |db'.runs| && db'.runs[a].schedule.Some? && db'.runs[b].schedule == db'.runs[a].schedule
      ensures Explained(db', db'.runs[a]) && Explained(db', db'.runs[b])
      ensures a < b ==> Follows(db', db'.runs[a], db'.runs[b])
    {
      if a < b == |db.runs| {
        InsertFollows(db, n, db.runs[a]);
      } else if b < |db.runs| {
        ForwardKeepsPair(db, db', db.runs[a], db.runs[b], db.runs[a], db.runs[b]);
      }
    }
  }

  lemma StepKeepsRunsOk(cal: Calendar, me: int, db: Db, n: Instance, op: Op)
    requires RowsOk(db) && RunsOk(db) && NodeOk(db, n) && (!n.pc.Idle? ==> n.now <= db.clock)
    ensures RowsOk(Step(cal, me, db, n, op).0) && RunsOk(Step(cal, me, db, n, op).0)
  {
    var db' := Step(cal, me, db, n, op).0;
    match op
    case Insert =>
      if n.pc.Checked? {
        InsertGoesForward(db, n);
        InsertKeepsRunsOk(db, n);
      }
    case Env(e) =>
      EnvGoesForward(db, e);
      ForwardKeepsRunsOk(db, db');
    case _ =>
      RestGoesForward(cal, me, db, n, op);
      ForwardKeepsRunsOk(db, db');
  }

  // --- the acting and the other instances ---

  lemma EnvKeepsNode(db: Db, n: Instance, e: Event)
    requires NodeOk(db, n)
    ensures NodeOk(EnvStep(db, e), n)
  {
  }

  /** Nothing an instance's verdict depends on differs between the two states. */
  ghost predicate SameGrounds(db: Db, db': Db) {
    && db'.tables == db.tables
    && |db'.schedules| == |db.schedules|
    && forall id :: 0 <= id < |db.schedules| ==>
         db'.schedules[id].(lastCronSlot := db.schedules[id].lastCronSlot) == db.schedules[id]
  }

  lemma SameGroundsKeepNode(db: Db, db': Db, n: Instance)
    requires NodeOk(db, n) && SameGrounds(db, db')
    ensures NodeOk(db', n)
  {
  }

  /** Anything but an insert leaves every other instance's verdict standing. */
  lemma OthersKeepNode(cal: Calendar, me: int, db: Db, n: Instance, op: Op, other: Instance)
    requires NodeOk(db, other)
    requires !(op.Insert? && n.pc.Checked?)
    ensures NodeOk(Step(cal, me, db, n, op).0, other)
  {
    if op.Env? {
      EnvKeepsNode(db, other, op.e);
    } else {
      SameGroundsKeepNode(db, Step(cal, me, db, n, op).0, other);
    }
  }

  lemma ActorKeepsNode(cal: Calendar, me: int, db: Db, n: Instance, op: Op)
    requires RowsOk(db) && NodeOk(db, n) && (!n.pc.Idle? ==> n.now <= db.clock)
    ensures var (db', n') := Step(cal, me, db, n, op);
            NodeOk(db', n')
  {
    match op
    case Evaluate(id) =>
      if n.pc.Body? { EvaluateJustifies(cal, db, n, id); }
    case Env(e) =>
      EnvKeepsNode(db, n, e);
    case Insert =>
      if n.pc.Checked? { InsertKeepsNode(db, n); }
    case Spawn(pid) =>
      if n.pc.Inserted? { SpawnKeepsNode(db, n, pid); }
    case _ =>
  }

  lemma InsertKeepsNode(db: Db, n: Instance)
    requires RowsOk(db) && NodeOk(db, n) && n.pc.Checked? && n.now <= db.clock
    ensures var (db', n') := InsertStep(db, n); NodeOk(db', n')
  {
  }

  lemma SpawnKeepsNode(db: Db, n: Instance, pid: Option<int>)
    requires NodeOk(db, n) && n.pc.Inserted?
    ensures var (db', n') := SpawnStep(db, n, pid); NodeOk(db', n')
  {
  }

  lemma HistoryStep(cal: Calendar, s: Sys, a: Action)
    requires LeaseInv(s) && HistoryInv(s) && LeaseInv(Apply(cal, s, a))
    ensures HistoryInv(Apply(cal, s, a))
  {
    if a.who in s.nodes {
      var t := Apply(cal, s, a);
      var n := s.nodes[a.who];
      StepKeepsRunsOk(cal, a.who, s.db, n, a.op);
      ActorKeepsNode(cal, a.who, s.db, n, a.op);
      forall i | i in s.nodes && i != a.who ensures NodeOk(t.db, s.nodes[i]) {
        if a.op.Insert? && n.pc.Checked? {
          assert !Inside(s.nodes[i]);
        } else {
          OthersKeepNode(cal, a.who, s.db, n, a.op, s.nodes[i]);
        }
      }
    }
  }

  /** Every run of the table is explained, and follows each earlier run of its
      schedule: an interval passed, a newer stamp, an update of every linked table. */
  lemma {:induction false} RunsFollow(cal: Calendar, s: Sys, run: seq<Action>)
    requires LeaseInv(s) && HistoryInv(s) && DisciplinedRun(cal, s, run)
    ensures HistoryInv(Exec(cal, s, run))
    decreases |run|
  {
    if run != [] {
      LeaseStep(cal, s, run[0]);
      HistoryStep(cal, s, run[0]);
      RunsFollow(cal, Apply(cal, s, run[0]), run[1..]);
    }
  }

  lemma InvariantsFromInit(s: Sys)
    requires Init(s)
    ensures LeaseInv(s) && ActiveInv(s) && HistoryInv(s)
  {
  }

  /** The committed cursor of a table trigger never runs ahead of the table. */
  lemma LastSeenNeverAhead(cal: Calendar, s: Sys, run: seq<Action>, id: nat)
    requires Init(s) && DisciplinedRun(cal, s, run)
    requires id < |Exec(cal, s, run).db.schedules|
    ensures var db := Exec(cal, s, run).db;
            var sc := db.schedules[id];
            sc.lastSeen.Some? && sc.triggerTable.Some? ==>
              Stamp(db.tables, sc.triggerTable.value).Some? &&
              sc.lastSeen.value <= Stamp(db.tables, sc.triggerTable.value).value
  {
    InvariantsFromInit(s);
    RunsFollow(cal, s, run);
    var db := Exec(cal, s, run).db;
    assert ScheduleOk(db, db.schedules[id]);
  }
}
