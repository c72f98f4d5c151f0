/**
 Cron schedules: the cursor lives in naive local wall-clock time, which may jump back,
 and still every slot is used at most once, as long as no tick dies between committing
 a run and moving a cursor that the schedule already had.
 */
module SchedulerCron {
  import opened Wrappers
  import opened SchedulerModel
  import opened SchedulerLease
  import opened SchedulerRuns

  /** croniter: `get_next` gives the least slot above its base. */
  ghost predicate NextIsLeast(cal: Calendar, expression: string, slots: iset<Local>) {
    forall b: Local ::
      match cal.next(expression, b)
      case Some(x) => x in slots && b < x && forall y :: y in slots && b < y ==> x <= y
      case None => forall y :: y in slots ==> y <= b
  }

  ghost predicate NextIsAbove(cal: Calendar) {
    forall e: string, b: Local :: cal.next(e, b).Some? ==> b < cal.next(e, b).value
  }

  /** A well-formed schedule is due exactly when a slot lies after its base and not
      after the local clock, however many slots were missed. */
  lemma CronDueIff(cal: Calendar, sc: Schedule, now: Time, slots: iset<Local>)
    requires sc.cronExpression.Some? && sc.cronExpression.value != "" && cal.validZone(Zone(sc))
    requires CronBase(cal, sc).Some? && NextIsLeast(cal, sc.cronExpression.value, slots)
    ensures CronDue(cal, sc, now).Some? <==>
            exists x :: x in slots && CronBase(cal, sc).value < x <= cal.local(Zone(sc), now)
  {
    var base := CronBase(cal, sc).value;
    assert cal.next(sc.cronExpression.value, base) == cal.next(sc.cronExpression.value, base);
  }

  /** One fire catches up with everything: right after it the schedule is due again
      only once a further slot has passed on the local clock. */
  lemma CatchUpFiresOnce(cal: Calendar, sc: Schedule, now: Time, later: Time, slots: iset<Local>)
    requires CronDue(cal, sc, now).Some?
    requires NextIsLeast(cal, sc.cronExpression.value, slots)
    ensures var sc' := sc.(lastTriggered := Some(now), lastCronSlot := Some(CronDue(cal, sc, now).value.cursor));
            (CronDue(cal, sc', later).Some? <==>
              exists x :: x in slots && cal.local(Zone(sc), now) < x <= cal.local(Zone(sc), later))
            && CronDue(cal, sc', now).None?
  {
    var sc' := sc.(lastTriggered := Some(now), lastCronSlot := Some(CronDue(cal, sc, now).value.cursor));
    CronDueIff(cal, sc', later, slots);
    CronDueIff(cal, sc', now, slots);
  }

  predicate CronRun(r: Run) {
    r.schedule.Some? && r.cause.Some? && r.cause.value.ByCron?
  }

  /** A successful cron fire: the child was spawned. */
  predicate Fired(r: Run) {
    CronRun(r) && r.pid.Some?
  }

  /** Evidence of a cron run: its slot is the one croniter gave for its base, and the
      cursor it leaves behind is not before it. */
  ghost predicate SlotOk(cal: Calendar, db: Db, id: nat, cause: Cause)
    requires cause.ByCron?
  {
    && id < |db.schedules| && db.schedules[id].kind.Cron?
    && db.schedules[id].cronExpression.Some?
    && cal.next(db.schedules[id].cronExpression.value, cause.base) == Some(cause.slot)
    && cause.base < cause.slot <= cause.cursor
  }

  /** `slot` is beyond the cursor of every successful fire of the schedule. */
  ghost predicate Beyond(db: Db, id: nat, slot: Local) {
    forall a :: 0 <= a < |db.runs| && Fired(db.runs[a]) && db.runs[a].schedule == Some(id) ==>
      db.runs[a].cause.value.cursor < slot
  }

  /** The grounds an instance holds while it launches a schedule. */
  ghost predicate Holds(cal: Calendar, db: Db, now: Time, id: nat, cause: Cause) {
    && id < |db.schedules|
    && if cause.ByCron? then
         && SlotOk(cal, db, id, cause)
         && Beyond(db, id, cause.slot)
         && cause.cursor == cal.local(Zone(db.schedules[id]), now)
         && (db.schedules[id].lastCronSlot.Some? ==> db.schedules[id].lastCronSlot.value == cause.base)
       else !db.schedules[id].kind.Cron?
  }

  /** A schedule without a cursor whose last run left its base at `cursor`. */
  ghost predicate BasedAt(cal: Calendar, sc: Schedule, cursor: Local) {
    sc.lastCronSlot.None? ==> CronBase(cal, sc) == Some(cursor)
  }

  ghost predicate CronNodeOk(cal: Calendar, db: Db, n: Instance) {
    match n.pc
    case Checked(id, cause) => Holds(cal, db, n.now, id, cause)
    case Inserted(id, run) =>
      && run == |db.runs| - 1 && db.runs[run].schedule == Some(id) && db.runs[run].pid.None?
      && db.runs[run].cause.Some? && Holds(cal, db, n.now, id, db.runs[run].cause.value)
      && (CronRun(db.runs[run]) ==> BasedAt(cal, db.schedules[id], db.runs[run].cause.value.cursor))
    case CursorDue(id, cursor) =>
      && id < |db.schedules| && db.schedules[id].kind.Cron?
      && (db.schedules[id].lastCronSlot.Some? ==> db.schedules[id].lastCronSlot.value < cursor)
      && BasedAt(cal, db.schedules[id], cursor)
      && Beyond(db, id, cursor + 1)
    case _ => true
  }

  ghost predicate CronRunsOk(cal: Calendar, db: Db) {
    && (forall a :: 0 <= a < |db.runs| && CronRun(db.runs[a]) ==>
          SlotOk(cal, db, db.runs[a].schedule.value, db.runs[a].cause.value))
    && (forall a, b ::
          0 <= a < b < |db.runs| && Fired(db.runs[a]) && Fired(db.runs[b]) && db.runs[a].schedule == db.runs[b].schedule
          ==> db.runs[a].cause.value.cursor < db.runs[b].cause.value.slot)
  }

  /** The next evaluation of every schedule but those in `due` starts from a base not
      before the cursor of any successful fire. */
  ghost predicate Covered(cal: Calendar, db: Db, due: iset<nat>) {
    forall a :: 0 <= a < |db.runs| && Fired(db.runs[a]) && db.runs[a].schedule.value !in due ==>
      && db.runs[a].schedule.value < |db.schedules|
      && CronBase(cal, db.schedules[db.runs[a].schedule.value]).Some?
      && db.runs[a].cause.value.cursor <= CronBase(cal, db.schedules[db.runs[a].schedule.value]).value
  }

  /** A fire is committed while an older cursor still stands.  A schedule without a cursor
      owes none: its base moved with the run. */
  predicate OwesCursor(db: Db, n: Instance) {
    n.pc.CursorDue? && n.pc.id < |db.schedules| && db.schedules[n.pc.id].lastCronSlot.Some?
  }

  ghost function Owed(s: Sys): iset<nat> {
    iset i | i in s.nodes && OwesCursor(s.db, s.nodes[i]) :: s.nodes[i].pc.id
  }

  ghost predicate CronInv(cal: Calendar, s: Sys) {
    && CronRunsOk(cal, s.db)
    && Covered(cal, s.db, Owed(s))
    && forall i :: i in s.nodes ==> CronNodeOk(cal, s.db, s.nodes[i])
  }

  /** Nothing about cron differs: no fire more or less, no base moved. */
  ghost predicate SameCron(db: Db, db': Db) {
    && |db.runs| == |db'.runs|
    && (forall a :: 0 <= a < |db.runs| ==>
          db'.runs[a].(ended := db.runs[a].ended, success := db.runs[a].success) == db.runs[a])
    && db.schedules == db'.schedules
  }

  lemma SameCronKeeps(cal: Calendar, db: Db, db': Db, due: iset<nat>)
    requires SameCron(db, db') && CronRunsOk(cal, db) && Covered(cal, db, due)
    ensures CronRunsOk(cal, db') && Covered(cal, db', due)
  {
  }

  lemma SameCronKeepsNode(cal: Calendar, db: Db, db': Db, n: Instance)
    requires SameCron(db, db') && CronNodeOk(cal, db, n)
    ensures CronNodeOk(cal, db', n)
  {
  }

  /** With every base covered, a due schedule's slot is beyond all its fires. */
  lemma EvaluateHolds(cal: Calendar, db: Db, n: Instance, id: nat)
    requires NextIsAbove(cal) && n.pc.Body? && Covered(cal, db, iset{})
    ensures CronNodeOk(cal, db, EvaluateStep(cal, db, n, id))
  {
  }

  lemma InsertKeepsCovered(cal: Calendar, db: Db, n: Instance)
    requires n.pc.Checked? && CronNodeOk(cal, db, n) && CronRunsOk(cal, db) && Covered(cal, db, iset{})
    ensures Covered(cal, InsertStep(db, n).0, iset{})
  {
  }

  lemma InsertKeepsFires(cal: Calendar, db: Db, n: Instance)
    requires n.pc.Checked? && CronNodeOk(cal, db, n) && CronRunsOk(cal, db)
    ensures CronRunsOk(cal, InsertStep(db, n).0)
  {
  }

  lemma InsertKeepsGrounds(cal: Calendar, db: Db, n: Instance)
    requires n.pc.Checked? && CronNodeOk(cal, db, n)
    ensures var (db', n') := InsertStep(db, n); CronNodeOk(cal, db', n')
  {
  }

  lemma InsertKeepsCron(cal: Calendar, db: Db, n: Instance)
    requires n.pc.Checked? && CronNodeOk(cal, db, n) && CronRunsOk(cal, db) && Covered(cal, db, iset{})
    ensures var (db', n') := InsertStep(db, n);
            CronNodeOk(cal, db', n') && CronRunsOk(cal, db') && Covered(cal, db', iset{})
  {
    InsertKeepsCovered(cal, db, n);
    InsertKeepsFires(cal, db, n);
    InsertKeepsGrounds(cal, db, n);
  }

  lemma SpawnKeepsCron(cal: Calendar, db: Db, n: Instance, pid: Option<int>)
    requires n.pc.Inserted? && CronNodeOk(cal, db, n) && CronRunsOk(cal, db) && Covered(cal, db, iset{})
    ensures var (db', n') := SpawnStep(db, n, pid);
            CronNodeOk(cal, db', n') && CronRunsOk(cal, db') && Covered(cal, db', OwedBy(db', n'))
  {
  }

  lemma SaveCursorKeepsCron(cal: Calendar, db: Db, n: Instance)
    requires n.pc.CursorDue? && CronNodeOk(cal, db, n) && CronRunsOk(cal, db) && Covered(cal, db, OwedBy(db, n))
    ensures var (db', n') := SaveCursorStep(db, n);
            CronNodeOk(cal, db', n') && CronRunsOk(cal, db') && Covered(cal, db', iset{})
  {
  }

  ghost function OwedBy(db: Db, n: Instance): iset<nat> {
    if OwesCursor(db, n) then iset{n.pc.id} else iset{}
  }

  /** The other operations leave every fire and every base as they are. */
  lemma QuietStep(cal: Calendar, me: int, db: Db, n: Instance, op: Op)
    requires !(op.Insert? && n.pc.Checked?) && !(op.Spawn? && n.pc.Inserted?) && !(op.SaveCursor? && n.pc.CursorDue?)
    ensures var (db', n') := Step(cal, me, db, n, op);
            && SameCron(db, db')
            && (!(op.Crash? && OwesCursor(db, n)) ==> OwedBy(db', n') == OwedBy(db, n))
            && ((op.Evaluate? && n.pc.Body?) || (n'.pc == n.pc && (n.pc.Body? || n'.now == n.now))
                || n'.pc.Idle? || n'.pc.Acquiring? || n'.pc.Body?)
  {
  }

  lemma ActorKeepsCron(cal: Calendar, me: int, db: Db, n: Instance, op: Op)
    requires NextIsAbove(cal) && CronNodeOk(cal, db, n) && CronRunsOk(cal, db) && Covered(cal, db, OwedBy(db, n))
    requires !(op.Crash? && OwesCursor(db, n))
    ensures var (db', n') := Step(cal, me, db, n, op);
            CronNodeOk(cal, db', n') && CronRunsOk(cal, db') && Covered(cal, db', OwedBy(db', n'))
  {
    if op.Insert? && n.pc.Checked? {
      InsertKeepsCron(cal, db, n);
    } else if op.Spawn? && n.pc.Inserted? {
      SpawnKeepsCron(cal, db, n, op.pid);
    } else if op.SaveCursor? && n.pc.CursorDue? {
      SaveCursorKeepsCron(cal, db, n);
    } else {
      QuietKeepsCron(cal, me, db, n, op);
    }
  }

  lemma QuietKeepsCron(cal: Calendar, me: int, db: Db, n: Instance, op: Op)
    requires NextIsAbove(cal) && CronNodeOk(cal, db, n) && CronRunsOk(cal, db) && Covered(cal, db, OwedBy(db, n))
    requires !(op.Insert? && n.pc.Checked?) && !(op.Spawn? && n.pc.Inserted?) && !(op.SaveCursor? && n.pc.CursorDue?)
    requires !(op.Crash? && OwesCursor(db, n))
    ensures var (db', n') := Step(cal, me, db, n, op);
            CronNodeOk(cal, db', n') && CronRunsOk(cal, db') && Covered(cal, db', OwedBy(db', n'))
  {
    var (db', n') := Step(cal, me, db, n, op);
    QuietStep(cal, me, db, n, op);
    SameCronKeeps(cal, db, db', OwedBy(db, n));
    if op.Evaluate? && n.pc.Body? {
      EvaluateHolds(cal, db, n, op.id);
    } else {
      SameCronKeepsNode(cal, db, db', n);
    }
  }

  lemma OwedAlone(s: Sys, i: int)
    requires i in s.nodes && forall j :: j in s.nodes && j != i ==> !Inside(s.nodes[j])
    ensures Owed(s) == OwedBy(s.db, s.nodes[i])
  {
  }

  /** A crash after the run is committed and before the cursor is, on a schedule that has
      an older cursor. */
  ghost predicate DiesBeforeCursor(s: Sys, a: Action) {
    a.op.Crash? && a.who in s.nodes && OwesCursor(s.db, s.nodes[a.who])
  }

  /** Crashes anywhere but there. */
  ghost predicate CursorsSaved(cal: Calendar, s: Sys, run: seq<Action>)
    decreases |run|
  {
    run == [] || (!DiesBeforeCursor(s, run[0]) && CursorsSaved(cal, Apply(cal, s, run[0]), run[1..]))
  }

  lemma CronStep(cal: Calendar, s: Sys, a: Action)
    requires NextIsAbove(cal) && LeaseInv(s) && CronInv(cal, s) && LeaseInv(Apply(cal, s, a))
    requires !DiesBeforeCursor(s, a)
    ensures CronInv(cal, Apply(cal, s, a))
  {
    if a.who in s.nodes {
      var t := Apply(cal, s, a);
      var n := s.nodes[a.who];
      if Inside(n) {
        assert forall i :: i in s.nodes && i != a.who ==> !Inside(s.nodes[i]) && t.nodes[i] == s.nodes[i];
        OwedAlone(s, a.who);
        OwedAlone(t, a.who);
        ActorKeepsCron(cal, a.who, s.db, n, a.op);
      } else {
        OutsiderKeepsCron(cal, s, a);
      }
    }
  }

  lemma OutsiderIsQuiet(cal: Calendar, s: Sys, a: Action)
    requires a.who in s.nodes && !Inside(s.nodes[a.who])
    ensures var t := Apply(cal, s, a);
            && SameCron(s.db, t.db) && Owed(t) == Owed(s)
            && CronNodeOk(cal, t.db, t.nodes[a.who])
            && forall i :: i in s.nodes && i != a.who ==> t.nodes[i] == s.nodes[i]
  {
  }

  lemma OutsiderKeepsCron(cal: Calendar, s: Sys, a: Action)
    requires CronInv(cal, s) && a.who in s.nodes && !Inside(s.nodes[a.who])
    ensures CronInv(cal, Apply(cal, s, a))
  {
    var t := Apply(cal, s, a);
    OutsiderIsQuiet(cal, s, a);
    SameCronKeeps(cal, s.db, t.db, Owed(s));
    forall i | i in s.nodes && i != a.who ensures CronNodeOk(cal, t.db, t.nodes[i]) {
      SameCronKeepsNode(cal, s.db, t.db, s.nodes[i]);
    }
  }

  /** Over any disciplined run, any jumps of the local clock and any crashes but those
      that leave an older cursor standing, the successful fires of a schedule use strictly
      increasing slots: each fire's slot is beyond the cursor the previous fire left, and
      its own cursor is not before it. */
  lemma {:induction false} CronSlotsIncrease(cal: Calendar, s: Sys, run: seq<Action>)
    requires NextIsAbove(cal) && LeaseInv(s) && CronInv(cal, s) && DisciplinedRun(cal, s, run)
    requires CursorsSaved(cal, s, run)
    ensures CronInv(cal, Exec(cal, s, run))
    decreases |run|
  {
    if run != [] {
      LeaseStep(cal, s, run[0]);
      CronStep(cal, s, run[0]);
      CronSlotsIncrease(cal, Apply(cal, s, run[0]), run[1..]);
    }
  }

  lemma CronInvFromInit(cal: Calendar, s: Sys)
    requires Init(s)
    ensures CronInv(cal, s)
  {
  }

  // --- a launch that does not get to its cursor ---

  /** Instance `n` finds the cron schedule due and passes the active-run check. */
  ghost predicate PassesCheck(cal: Calendar, db: Db, n: Instance, id: nat, cause: Cause) {
    && n.pc.Body? && id < |db.schedules| && cause.ByCron?
    && EvaluateStep(cal, db, n, id).pc == Checked(id, cause)
  }

  function DueAgain(cal: Calendar, db: Db, id: nat, slot: Local, later: Time): bool
    requires id < |db.schedules|
  {
    var again := Due(cal, db.tables, db.schedules[id], later);
    again.Some? && again.value.ByCron? && again.value.slot == slot
  }

  /** What the commit of the run leaves: the slot is due again if and only if the schedule
      had a cursor before and the local clock is not before the slot.  Without one,
      `last_triggered_at` is the new base, and it is not before the slot. */
  lemma CommittedRunDueAgainIff(cal: Calendar, db: Db, n: Instance, id: nat, cause: Cause, sc': Schedule,
                                tables: map<int, seq<Time>>, later: Time)
    requires NextIsAbove(cal) && PassesCheck(cal, db, n, id, cause)
    requires sc' == db.schedules[id].(lastSeen := sc'.lastSeen, lastTriggered := Some(n.now))
    ensures var again := Due(cal, tables, sc', later);
            (again.Some? && again.value.ByCron? && again.value.slot == cause.slot) <==>
            db.schedules[id].lastCronSlot.Some? && cause.slot <= cal.local(Zone(sc'), later)
  {
    var sc := db.schedules[id];
    assert cause == CronDue(cal, SessionRow(db, n.dirty, id), n.now).value;
    assert CronBase(cal, SessionRow(db, n.dirty, id)) == CronBase(cal, sc) == Some(cause.base);
    assert cause.slot <= cal.local(Zone(sc), n.now);
    if sc.lastCronSlot.None? {
      assert CronBase(cal, sc') == Some(cal.local(Zone(sc), n.now));
    }
  }

  /** Why some crashes are excluded: a tick that dies after the run is committed and before
      the cursor is makes the same slot due again, on a schedule that had a cursor. */
  lemma CrashRepeatsTheSlotIff(cal: Calendar, s: Sys, i: int, id: nat, cause: Cause, pid: int, later: Time)
    requires NextIsAbove(cal) && i in s.nodes && PassesCheck(cal, s.db, s.nodes[i], id, cause)
    ensures var t := Exec(cal, s, [By(i, Evaluate(id)), By(i, Insert), By(i, Spawn(Some(pid))), By(i, Crash)]);
            id < |t.db.schedules| && t.db.runs != [] && Fired(t.db.runs[|t.db.runs| - 1]) && t.nodes[i] == IDLE &&
            (DueAgain(cal, t.db, id, cause.slot, later) <==>
              s.db.schedules[id].lastCronSlot.Some? && cause.slot <= cal.local(Zone(s.db.schedules[id]), later))
  {
    ExecFour(cal, s, By(i, Evaluate(id)), By(i, Insert), By(i, Spawn(Some(pid))), By(i, Crash));
    var t := Exec(cal, s, [By(i, Evaluate(id)), By(i, Insert), By(i, Spawn(Some(pid))), By(i, Crash)]);
    CommittedRunDueAgainIff(cal, s.db, s.nodes[i], id, cause, t.db.schedules[id], t.db.tables, later);
  }

  /** A launch whose process cannot be spawned is retried for the same slot under the same
      condition.  Without a cursor the slot is lost: the failed run moved the base past it. */
  lemma FailedSpawnRetriedIff(cal: Calendar, s: Sys, i: int, id: nat, cause: Cause, later: Time)
    requires NextIsAbove(cal) && i in s.nodes && PassesCheck(cal, s.db, s.nodes[i], id, cause)
    ensures var t := Exec(cal, s, [By(i, Evaluate(id)), By(i, Insert), By(i, Spawn(None))]);
            id < |t.db.schedules| && t.db.runs != [] && t.db.runs[|t.db.runs| - 1].success == Some(false) &&
            (DueAgain(cal, t.db, id, cause.slot, later) <==>
              s.db.schedules[id].lastCronSlot.Some? && cause.slot <= cal.local(Zone(s.db.schedules[id]), later))
  {
    ExecThree(cal, s, By(i, Evaluate(id)), By(i, Insert), By(i, Spawn(None)));
    var t := Exec(cal, s, [By(i, Evaluate(id)), By(i, Insert), By(i, Spawn(None))]);
    CommittedRunDueAgainIff(cal, s.db, s.nodes[i], id, cause, t.db.schedules[id], t.db.tables, later);
  }
}
