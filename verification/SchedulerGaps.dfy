/**
 Where an update or a flow gets stuck: the exact conditions under which a table update
 noticed during a tick is lost, by another launch of the tick or by a process that cannot
 be spawned, and a flow blocked by a launch that died.
 */
module SchedulerGaps {
  import opened Wrappers
  import opened SchedulerModel
  import opened SchedulerLease
  import opened SchedulerRuns
  import opened SchedulerTick

  // --- an instance by itself ---

  function RunOps(cal: Calendar, me: int, db: Db, n: Instance, ops: seq<Op>): (Db, Instance)
    decreases |ops|
  {
    if ops == [] then (db, n)
    else
      var (db', n') := Step(cal, me, db, n, ops[0]);
      RunOps(cal, me, db', n', ops[1..])
  }

  lemma {:induction false} RunOpsConcat(cal: Calendar, me: int, db: Db, n: Instance, a: seq<Op>, b: seq<Op>)
    ensures var (db', n') := RunOps(cal, me, db, n, a);
            RunOps(cal, me, db, n, a + b) == RunOps(cal, me, db', n', b)
    decreases |a|
  {
    if a == [] {
      assert a + b == b;
    } else {
      assert (a + b)[1..] == a[1..] + b;
      var (db1, n1) := Step(cal, me, db, n, a[0]);
      RunOpsConcat(cal, me, db1, n1, a[1..], b);
    }
  }

  lemma RunOpsLast(cal: Calendar, me: int, db: Db, n: Instance, a: seq<Op>, op: Op)
    ensures var (db', n') := RunOps(cal, me, db, n, a);
            RunOps(cal, me, db, n, a + [op]) == Step(cal, me, db', n', op)
  {
    RunOpsConcat(cal, me, db, n, a, [op]);
  }

  function Lift(me: int, ops: seq<Op>): seq<Action> {
    seq(|ops|, k requires 0 <= k < |ops| => By(me, ops[k]))
  }

  /** What an instance does by itself is what it does as part of the system. */
  lemma {:induction false} OpsAreActions(cal: Calendar, s: Sys, me: int, ops: seq<Op>)
    requires me in s.nodes
    ensures var (db', n') := RunOps(cal, me, s.db, s.nodes[me], ops);
            Exec(cal, s, Lift(me, ops)) == Sys(db', s.nodes[me := n'])
    decreases |ops|
  {
    if ops != [] {
      var t := Apply(cal, s, By(me, ops[0]));
      assert Lift(me, ops)[1..] == Lift(me, ops[1..]);
      OpsAreActions(cal, t, me, ops[1..]);
      var (db', n') := RunOps(cal, me, t.db, t.nodes[me], ops[1..]);
      assert t.nodes[me := n'] == s.nodes[me := n'];
    } else {
      assert s.nodes[me := s.nodes[me]] == s.nodes;
    }
  }

  // --- an update noticed and not launched ---

  /** Some operation commits the session's pending writes. */
  ghost predicate Commits(cal: Calendar, me: int, db: Db, n: Instance, ops: seq<Op>)
    decreases |ops|
  {
    if ops == [] then false
    else if ops[0].Insert? && n.pc.Checked? && n.pc.id < |db.schedules| then true
    else
      var (db', n') := Step(cal, me, db, n, ops[0]);
      Commits(cal, me, db', n', ops[1..])
  }

  /** Operations of the same tick that do not come back to schedule `id`. */
  predicate StaysInTick(ops: seq<Op>, id: nat) {
    forall k :: 0 <= k < |ops| ==> !ops[k].Crash? && !ops[k].EndTick? && ops[k] != Evaluate(id)
  }

  /** A cursor noted in the session reaches the database exactly when something later
      in the tick commits; otherwise it stays pending and is dropped with the session. */
  lemma {:induction false} PendingCursorCommittedIff(cal: Calendar, me: int, db: Db, n: Instance, ops: seq<Op>, id: nat)
    requires Inside(n) && id in n.dirty && id < |db.schedules| && StaysInTick(ops, id)
    ensures var (db', n') := RunOps(cal, me, db, n, ops);
            |db'.schedules| == |db.schedules| &&
            db'.schedules[id].triggerTable == db.schedules[id].triggerTable &&
            if Commits(cal, me, db, n, ops) then db'.schedules[id].lastSeen == Some(n.dirty[id])
            else
              && db'.schedules[id].lastSeen == db.schedules[id].lastSeen
              && id in n'.dirty && n'.dirty[id] == n.dirty[id]
    decreases |ops|
  {
    if ops != [] {
      var (db', n') := Step(cal, me, db, n, ops[0]);
      if ops[0].Insert? && n.pc.Checked? && n.pc.id < |db.schedules| {
        CommittedCursorStays(cal, me, db', n', ops[1..], id);
      } else {
        PendingCursorCommittedIff(cal, me, db', n', ops[1..], id);
      }
    }
  }

  lemma {:induction false} CommittedCursorStays(cal: Calendar, me: int, db: Db, n: Instance, ops: seq<Op>, id: nat)
    requires Inside(n) && id !in n.dirty && id < |db.schedules| && StaysInTick(ops, id)
    ensures var (db', n') := RunOps(cal, me, db, n, ops);
            |db'.schedules| == |db.schedules| &&
            db'.schedules[id].triggerTable == db.schedules[id].triggerTable &&
            db'.schedules[id].lastSeen == db.schedules[id].lastSeen
    decreases |ops|
  {
    if ops != [] {
      var (db', n') := Step(cal, me, db, n, ops[0]);
      CommittedCursorStays(cal, me, db', n', ops[1..], id);
    }
  }

  lemma {:induction false} StampsGrow(cal: Calendar, me: int, db: Db, n: Instance, ops: seq<Op>, table: int)
    requires Stamp(db.tables, table).Some?
    ensures var db' := RunOps(cal, me, db, n, ops).0;
            Stamp(db'.tables, table).Some? && Stamp(db.tables, table).value <= Stamp(db'.tables, table).value
    decreases |ops|
  {
    if ops != [] {
      var (db', n') := Step(cal, me, db, n, ops[0]);
      StampsGrow(cal, me, db', n', ops[1..], table);
    }
  }

  /** An update is noticed while the flow is still running, or its registration is gone,
      so nothing is launched for it.  It is due again on the next tick if and only if nothing later in this tick
      committed, or the table was updated once more: any other launch of the same tick
      loses the update. */
  lemma MissedUpdateRetriedIff(cal: Calendar, me: int, db: Db, n: Instance, id: nat, ops: seq<Op>)
    requires n.pc.Body? && id < |db.schedules| && id !in n.dirty
    requires db.schedules[id].kind.TableTrigger? && Due(cal, db.tables, db.schedules[id], db.clock).Some?
    requires !CanLaunch(db, db.schedules[id].reg)
    requires StaysInTick(ops, id)
    ensures var m := EvaluateStep(cal, db, n, id);
            var db' := RunOps(cal, me, db, m, ops + [EndTick]).0;
            id < |db'.schedules| &&
            var table := db.schedules[id].triggerTable.value;
            Stamp(db'.tables, table).Some? &&
            (TableDue(db'.tables, db'.schedules[id]).Some? <==>
              !Commits(cal, me, db, m, ops) || Stamp(db'.tables, table).value > Stamp(db.tables, table).value)
  {
    var m := EvaluateStep(cal, db, n, id);
    PendingCursorCommittedIff(cal, me, db, m, ops, id);
    StampsGrow(cal, me, db, m, ops, db.schedules[id].triggerTable.value);
    RunOpsLast(cal, me, db, m, ops, EndTick);
  }

  /** The losing trace: whenever a second schedule passes its check after the missed one,
      its commit persists the noted stamp, and the update is never due again. */
  lemma LaterLaunchLosesUpdate(cal: Calendar, me: int, db: Db, n: Instance, id: nat, other: nat)
    requires n.pc.Body? && id < |db.schedules| && id !in n.dirty && id != other
    requires db.schedules[id].kind.TableTrigger? && Due(cal, db.tables, db.schedules[id], db.clock).Some?
    requires !CanLaunch(db, db.schedules[id].reg)
    requires EvaluateStep(cal, db, EvaluateStep(cal, db, n, id), other).pc.Checked?
    ensures var m := EvaluateStep(cal, db, n, id);
            Commits(cal, me, db, m, [Evaluate(other), Insert]) &&
            var db' := RunOps(cal, me, db, m, [Evaluate(other), Insert] + [EndTick]).0;
            id < |db'.schedules| && TableDue(db'.tables, db'.schedules[id]).None?
  {
    var m := EvaluateStep(cal, db, n, id);
    var ops := [Evaluate(other), Insert];
    var n1 := EvaluateStep(cal, db, m, other);
    assert ops[1..] == [Insert];
    assert Commits(cal, me, db, n1, [Insert]);
    MissedUpdateRetriedIff(cal, me, db, n, id, ops);
    assert [Insert][1..] == [];
    assert RunOps(cal, me, db, n1, [Insert]) == InsertStep(db, n1);
    assert RunOps(cal, me, db, m, ops) == InsertStep(db, n1);
    RunOpsLast(cal, me, db, m, ops, EndTick);
  }

  // --- a launch whose process cannot be spawned ---

  /** Evaluate, insert, and a spawn that fails. */
  function FailedLaunch(id: nat): seq<Op> {
    [Evaluate(id), Insert, Spawn(None)]
  }

  lemma FailedLaunchRuns(cal: Calendar, me: int, db: Db, n: Instance, id: nat)
    requires n.pc.Body? && EvaluateStep(cal, db, n, id).pc.Checked?
    ensures var (db1, n1) := InsertStep(db, EvaluateStep(cal, db, n, id));
            n1.pc.Inserted? && RunOps(cal, me, db, n, FailedLaunch(id)) == SpawnStep(db1, n1, None)
  {
    var m := EvaluateStep(cal, db, n, id);
    var (db1, n1) := InsertStep(db, m);
    assert FailedLaunch(id)[1..] == [Insert, Spawn(None)] && [Insert, Spawn(None)][1..] == [Spawn(None)];
    assert [Spawn(None)][1..] == [];
    assert RunOps(cal, me, db1, n1, [Spawn(None)]) == SpawnStep(db1, n1, None);
    assert RunOps(cal, me, db, m, [Insert, Spawn(None)]) == SpawnStep(db1, n1, None);
  }

  /** The commit of the run row took the noted stamp with it: the update is due again only
      once the table is updated once more. */
  lemma TableSpawnFailureRetriedIff(cal: Calendar, me: int, db: Db, n: Instance, id: nat, stamp: Time,
      later: map<int, seq<Time>>)
    requires n.pc.Body? && EvaluateStep(cal, db, n, id).pc == Checked(id, ByTable(stamp))
    ensures var db' := RunOps(cal, me, db, n, FailedLaunch(id)).0;
            id < |db.schedules| == |db'.schedules| && db.schedules[id].triggerTable.Some? &&
            var now := Stamp(later, db.schedules[id].triggerTable.value);
            (TableDue(later, db'.schedules[id]).Some? <==> now.Some? && now.value > stamp)
  {
    FailedLaunchRuns(cal, me, db, n, id);
  }

  /** A table set is due again only once every linked table is updated once more. */
  lemma SetSpawnFailureRetriedIff(cal: Calendar, me: int, db: Db, n: Instance, id: nat, stamps: seq<Time>,
      later: map<int, seq<Time>>)
    requires n.pc.Body? && EvaluateStep(cal, db, n, id).pc == Checked(id, BySet(stamps))
    ensures var db' := RunOps(cal, me, db, n, FailedLaunch(id)).0;
            id < |db.schedules| == |db'.schedules| &&
            var links := db.schedules[id].links;
            (SetDue(later, db'.schedules[id]).Some? <==>
              forall k :: 0 <= k < |links| ==> Fresh(later, links[k], Some(db.clock)))
  {
    FailedLaunchRuns(cal, me, db, n, id);
  }

  /** An interval schedule waits for another full interval. */
  lemma IntervalSpawnFailureRetriedIff(cal: Calendar, me: int, db: Db, n: Instance, id: nat, later: Time)
    requires n.pc.Body? && EvaluateStep(cal, db, n, id).pc == Checked(id, ByInterval)
    ensures var db' := RunOps(cal, me, db, n, FailedLaunch(id)).0;
            id < |db.schedules| == |db'.schedules| && db.schedules[id].intervalSeconds.Some? &&
            (IntervalDue(db'.schedules[id], later) <==>
              later - n.now >= db.schedules[id].intervalSeconds.value * SECOND)
  {
    FailedLaunchRuns(cal, me, db, n, id);
  }

  // --- a launch that dies between the run row and the process ---

  /** An unfinished run that no instance is still going to spawn. */
  ghost predicate Orphaned(s: Sys, k: nat) {
    && k < |s.db.runs|
    && s.db.runs[k].ended.None?
    && forall i :: i in s.nodes && s.nodes[i].pc.Inserted? ==> s.nodes[i].pc.run != k
  }

  /** No further run of the orphan's flow, and the orphan still unfinished. */
  ghost predicate Blocked(before: seq<Run>, after: seq<Run>, k: nat) {
    && k < |before| <= |after|
    && after[k].ended.None?
    && (forall j :: 0 <= j < |before| ==> after[j].reg == before[j].reg)
    && forall j :: |before| <= j < |after| ==> after[j].reg != before[k].reg
  }

  lemma CrashOrphans(cal: Calendar, s: Sys, i: int)
    requires LeaseInv(s) && i in s.nodes && s.nodes[i].pc.Inserted?
    requires s.nodes[i].pc.run < |s.db.runs| && s.db.runs[s.nodes[i].pc.run].ended.None?
    ensures Orphaned(Apply(cal, s, By(i, Crash)), s.nodes[i].pc.run)
  {
    assert forall j :: j in s.nodes && Inside(s.nodes[j]) ==> j == i;
  }

  /** What one instance does to an orphan that is not its own. */
  lemma StepLeavesOrphan(cal: Calendar, me: int, db: Db, n: Instance, op: Op, k: nat)
    requires k < |db.runs| && db.runs[k].ended.None? && ActiveNodeOk(db, n)
    requires !(n.pc.Inserted? && n.pc.run == k) && !(op.Env? && op.e.Complete? && op.e.run == k)
    ensures var (db', n') := Step(cal, me, db, n, op);
            Blocked(db.runs, db'.runs, k) && !(n'.pc.Inserted? && n'.pc.run == k)
  {
    if op.Insert? && n.pc.Checked? {
      assert !HasActive(db.runs, db.schedules[n.pc.id].reg);
    }
  }

  lemma OrphanStep(cal: Calendar, s: Sys, a: Action, k: nat)
    requires ActiveInv(s) && Orphaned(s, k)
    requires !(a.op.Env? && a.op.e.Complete? && a.op.e.run == k)
    ensures Orphaned(Apply(cal, s, a), k) && Blocked(s.db.runs, Apply(cal, s, a).db.runs, k)
  {
    if a.who in s.nodes {
      StepLeavesOrphan(cal, a.who, s.db, s.nodes[a.who], a.op, k);
    }
  }

  /** If the process that inserted a run dies before spawning it, the scheduler never
      launches that flow again, on any schedule, until someone else ends the run. */
  lemma {:induction false} OrphanBlocksItsFlow(cal: Calendar, s: Sys, run: seq<Action>, k: nat)
    requires LeaseInv(s) && ActiveInv(s) && Orphaned(s, k) && DisciplinedRun(cal, s, run)
    requires forall j :: 0 <= j < |run| ==> !(run[j].op.Env? && run[j].op.e.Complete? && run[j].op.e.run == k)
    ensures Blocked(s.db.runs, Exec(cal, s, run).db.runs, k)
    decreases |run|
  {
    if run != [] {
      var t := Apply(cal, s, run[0]);
      LeaseStep(cal, s, run[0]);
      ActiveStep(cal, s, run[0]);
      OrphanStep(cal, s, run[0], k);
      OrphanBlocksItsFlow(cal, t, run[1..], k);
    }
  }

  // --- the imperative tick inherits the safety of the system ---

  /** A tick as the code runs it, with whatever others do between its lines, leaves one
      active run per flow, if the whole is a disciplined run of a system safe so far. */
  lemma TickLeavesOneActiveRun(cal: Calendar, s: Sys, me: int, script: Script)
    requires LeaseInv(s) && ActiveInv(s) && DisciplinedRun(cal, s, TickActs(cal, me, s, script))
    ensures var t := Exec(cal, s, TickActs(cal, me, s, script));
            LeaseInv(t) && Exclusive(t) && AtMostOneActive(t.db.runs)
  {
    LeaseExclusion(cal, s, TickActs(cal, me, s, script));
    OneActiveRunPerFlow(cal, s, TickActs(cal, me, s, script));
  }

  /** No tick in progress outlives its lease at any point of the run. */
  ghost predicate TimelyRun(cal: Calendar, s: Sys, run: seq<Action>)
    decreases |run|
  {
    run == [] || (Timely(Apply(cal, s, run[0])) && TimelyRun(cal, Apply(cal, s, run[0]), run[1..]))
  }

  /** Only `me` acts, and the world around the scheduler; nobody releases the lock. */
  predicate Undisturbed(me: int, acts: seq<Action>) {
    forall k :: 0 <= k < |acts| ==> acts[k].op.Env? || (acts[k].who == me && !acts[k].op.Release?)
  }

  /** `me` does not write the lock row. */
  predicate OffLock(me: int, acts: seq<Action>) {
    forall k :: 0 <= k < |acts| && acts[k].who == me ==> !acts[k].op.WriteLock?
  }

  lemma {:induction false} OffLockIsDisciplined(cal: Calendar, s: Sys, me: int, acts: seq<Action>)
    requires OffLock(me, acts) && Undisturbed(me, acts) && TimelyRun(cal, s, acts)
    ensures DisciplinedRun(cal, s, acts)
    decreases |acts|
  {
    if acts != [] { OffLockIsDisciplined(cal, Apply(cal, s, acts[0]), me, acts[1..]); }
  }

  lemma {:induction false} ActsOffLock(me: int, inside: bool, actions: seq<Action>)
    ensures OffLock(me, Acts(me, inside, actions))
  {
    if actions != [] { ActsOffLock(me, inside, actions[..|actions| - 1]); }
  }

  lemma TurnOffLock(cal: Calendar, me: int, s: Sys, id: nat, t: Turn)
    ensures OffLock(me, TurnActs(cal, me, s, id, t))
  {
    var head, save := Acts(me, true, t.before) + [By(me, Evaluate(id))], Acts(me, true, t.spawned) + [By(me,
        SaveCursor)];
    ActsOffLock(me, true, t.before);
    LaunchOffLock(me, t);
    ActsOffLock(me, true, t.spawned);
    OffLockConcat(me, head, LaunchActs(me, t));
    OffLockConcat(me, head + LaunchActs(me, t), save);
  }

  lemma LaunchOffLock(me: int, t: Turn)
    ensures OffLock(me, LaunchActs(me, t))
  {
    ActsOffLock(me, true, t.checked);
    ActsOffLock(me, true, t.inserted);
  }

  lemma OffLockConcat(me: int, a: seq<Action>, b: seq<Action>)
    requires OffLock(me, a) && OffLock(me, b)
    ensures OffLock(me, a + b)
  {
  }

  lemma {:induction false} LoopOffLock(cal: Calendar, me: int, s: Sys, kind: Kind, ids: seq<nat>, k: nat,
      script: Script)
    requires k <= |ids|
    ensures OffLock(me, LoopActs(cal, me, s, kind, ids, k, script))
    decreases |ids| - k
  {
    if k < |ids| {
      var head := TurnActs(cal, me, s, ids[k], script.turn(kind, k));
      TurnOffLock(cal, me, s, ids[k], script.turn(kind, k));
      LoopOffLock(cal, me, Exec(cal, s, head), kind, ids, k + 1, script);
    }
  }

  lemma {:induction false} PhasesOffLock(cal: Calendar, me: int, s: Sys, kinds: seq<Kind>, script: Script)
    ensures OffLock(me, PhasesActs(cal, me, s, kinds, script))
    decreases |kinds|
  {
    if kinds != [] {
      var start := Acts(me, true, script.start(kinds[0])) + [By(me, ReadClock)];
      ActsOffLock(me, true, script.start(kinds[0]));
      LoopOffLock(cal, me, Exec(cal, s, start), kinds[0], Query(s.db.schedules, kinds[0]), 0, script);
      PhasesOffLock(cal, me, Exec(cal, s, PhaseActs(cal, me, s, kinds[0], script)), kinds[1..], script);
    }
  }

  /** Between reading the lock row and writing it, the world leaves the row alone. */
  lemma {:induction false} LockingIsDisciplined(cal: Calendar, s: Sys, me: int, acts: seq<Action>, rest: seq<Action>)
    requires me in s.nodes && s.nodes[me].pc == Acquiring(s.db.lock)
    requires forall k :: 0 <= k < |acts| ==> acts[k].op.Env?
    requires OffLock(me, rest) && Undisturbed(me, rest) && TimelyRun(cal, s, acts + [By(me, WriteLock)] + rest)
    ensures DisciplinedRun(cal, s, acts + [By(me, WriteLock)] + rest)
    decreases |acts|
  {
    var run := acts + [By(me, WriteLock)] + rest;
    var t := Apply(cal, s, run[0]);
    if acts == [] {
      assert run[1..] == rest;
      OffLockIsDisciplined(cal, t, me, rest);
    } else {
      assert run[1..] == acts[1..] + [By(me, WriteLock)] + rest;
      LockingIsDisciplined(cal, t, me, acts[1..], rest);
    }
  }

  lemma {:induction false} QuietLocking(me: int, actions: seq<Action>)
    requires Undisturbed(me, Acts(me, false, actions))
    ensures forall k :: 0 <= k < |Acts(me, false, actions)| ==> Acts(me, false, actions)[k].op.Env?
  {
    if actions != [] {
      var front := Acts(me, false, actions[..|actions| - 1]);
      assert forall k :: 0 <= k < |front| ==> front[k] == Acts(me, false, actions)[k];
      QuietLocking(me, actions[..|actions| - 1]);
    }
  }

  lemma UndisturbedParts(me: int, a: seq<Action>, b: seq<Action>)
    requires Undisturbed(me, a + b)
    ensures Undisturbed(me, a) && Undisturbed(me, b)
  {
    assert forall k :: 0 <= k < |a| ==> a[k] == (a + b)[k];
    assert forall k :: 0 <= k < |b| ==> b[k] == (a + b)[|a| + k];
  }

  lemma EntryIsDisciplined(cal: Calendar, s: Sys, me: int, acts: seq<Action>, rest: seq<Action>)
    requires me in s.nodes && s.nodes[me] == IDLE
    requires forall k :: 0 <= k < |acts| ==> acts[k].op.Env?
    requires OffLock(me, rest) && Undisturbed(me, rest)
    requires TimelyRun(cal, s, [By(me, ReadLock)] + (acts + [By(me, WriteLock)] + rest))
    ensures DisciplinedRun(cal, s, [By(me, ReadLock)] + (acts + [By(me, WriteLock)] + rest))
  {
    var run := [By(me, ReadLock)] + (acts + [By(me, WriteLock)] + rest);
    assert run[1..] == acts + [By(me, WriteLock)] + rest;
    LockingIsDisciplined(cal, Apply(cal, s, By(me, ReadLock)), me, acts, rest);
  }

  lemma QuietEntryIsDisciplined(cal: Calendar, s: Sys, me: int, actions: seq<Action>, rest: seq<Action>)
    requires me in s.nodes && s.nodes[me] == IDLE && OffLock(me, rest)
    requires Undisturbed(me, [By(me, ReadLock)] + (Acts(me, false, actions) + [By(me, WriteLock)] + rest))
    requires TimelyRun(cal, s, [By(me, ReadLock)] + (Acts(me, false, actions) + [By(me, WriteLock)] + rest))
    ensures DisciplinedRun(cal, s, [By(me, ReadLock)] + (Acts(me, false, actions) + [By(me, WriteLock)] + rest))
  {
    var locking := Acts(me, false, actions);
    UndisturbedParts(me, [By(me, ReadLock)], locking + [By(me, WriteLock)] + rest);
    UndisturbedParts(me, locking + [By(me, WriteLock)], rest);
    UndisturbedParts(me, locking, [By(me, WriteLock)]);
    QuietLocking(me, actions);
    EntryIsDisciplined(cal, s, me, locking, rest);
  }

  lemma EntryFirst(a: seq<Action>, b: seq<Action>, c: seq<Action>, d: seq<Action>)
    ensures a + b + c + d == a + (b + c + d)
  {
  }

  /** A tick reads the lock row, writes it, and then leaves it alone. */
  lemma TickShape(cal: Calendar, me: int, s: Sys, script: Script) returns (rest: seq<Action>)
    ensures TickActs(cal, me, s, script)
            == [By(me, ReadLock)] + (Acts(me, false, script.locking) + [By(me, WriteLock)] + rest)
    ensures OffLock(me, rest)
  {
    var s1 := Exec(cal, s, LockActs(me, script));
    PhasesOffLock(cal, me, s1, PHASES, script);
    rest := if Pc(s1, me).Body? then PhasesActs(cal, me, s1, PHASES, script) else [];
    EntryFirst([By(me, ReadLock)], Acts(me, false, script.locking), [By(me, WriteLock)], rest);
    assert LockActs(me, script) + [] == LockActs(me, script);
  }

  /** When no other instance acts during it, a tick is disciplined as soon as its own lease
      does not run out. */
  lemma QuietTickIsDisciplined(cal: Calendar, s: Sys, me: int, script: Script)
    requires me in s.nodes && s.nodes[me] == IDLE && Undisturbed(me, TickActs(cal, me, s, script))
    requires TimelyRun(cal, s, TickActs(cal, me, s, script))
    ensures DisciplinedRun(cal, s, TickActs(cal, me, s, script))
  {
    var rest := TickShape(cal, me, s, script);
    QuietEntryIsDisciplined(cal, s, me, script.locking, rest);
  }
}
