/**
 What a tick has to do: exactly when a schedule is launched, said in terms of the rows and
 the clock alone, what a launch leaves behind, and that every enabled schedule gets its
 turn.
 */
module SchedulerDue {
  import opened Wrappers
  import opened SchedulerModel
  import opened SchedulerLease
  import opened SchedulerCron
  import opened SchedulerBounds
  import opened SchedulerTick

  // --- when a schedule is launched ---

  /** The flow is registered and none of its runs is unfinished. */
  ghost predicate MayStart(db: Db, reg: int) {
    reg in db.regs && forall k :: 0 <= k < |db.runs| && db.runs[k].reg == reg ==> db.runs[k].ended.Some?
  }

  /** Instance `me` is about to evaluate schedule `id`. */
  predicate Evaluating(s: Sys, me: int, id: nat) {
    me in s.nodes && s.nodes[me].pc.Body? && id < |s.db.schedules|
  }

  /** An interval schedule is launched at once if it never ran, and otherwise when the
      whole interval has passed since it last did. */
  lemma IntervalLaunchedIff(cal: Calendar, s: Sys, me: int, id: nat)
    requires Evaluating(s, me, id) && s.db.schedules[id].kind.Interval?
    ensures var sc, now := s.db.schedules[id], s.nodes[me].now;
            var pc := Apply(cal, s, By(me, Evaluate(id))).nodes[me].pc;
            && (pc == Checked(id, ByInterval) || pc == Body)
            && (pc == Checked(id, ByInterval) <==>
                  && sc.enabled && MayStart(s.db, sc.reg) && sc.intervalSeconds.Some?
                  && (sc.lastTriggered.None? || now - sc.lastTriggered.value >= sc.intervalSeconds.value * 1_000_000))
  {
    assert CanLaunch(s.db, s.db.schedules[id].reg) <==> MayStart(s.db, s.db.schedules[id].reg);
  }

  /** The processor's instant is the wall clock when it starts, and it is the start of the
      run. */
  lemma ProcessorUsesWallClock(cal: Calendar, s: Sys, me: int, id: nat, pid: Option<int>)
    requires Evaluating(s, me, id) && s.db.schedules[id].kind.Interval? && s.db.schedules[id].enabled
    requires s.db.schedules[id].intervalSeconds.Some? && s.db.schedules[id].lastTriggered.Some?
    requires MayStart(s.db, s.db.schedules[id].reg)
    ensures var sc := s.db.schedules[id];
            var due := Exec(cal, s, [By(me, ReadClock), By(me, Evaluate(id))]);
            var run := Exec(cal, due, [By(me, Insert), By(me, Spawn(pid))]);
            && (due.nodes[me].pc.Checked? <==>
                  s.db.clock >= sc.lastTriggered.value + sc.intervalSeconds.value * 1_000_000)
            && (due.nodes[me].pc.Checked? ==>
                  |run.db.runs| == |s.db.runs| + 1 && run.db.runs[|s.db.runs|].started == s.db.clock)
  {
    ExecTwo(cal, s, By(me, ReadClock), By(me, Evaluate(id)));
    var read := Apply(cal, s, By(me, ReadClock));
    IntervalLaunchedIff(cal, read, me, id);
    var due := Apply(cal, read, By(me, Evaluate(id)));
    if due.nodes[me].pc.Checked? { LaunchLeavesRun(cal, due, me, id, ByInterval, pid); }
  }

  /** A table trigger is launched for the table's latest update, unless it has seen that
      update or a later one. */
  lemma TableLaunchedIff(cal: Calendar, s: Sys, me: int, id: nat)
    requires Evaluating(s, me, id) && s.db.schedules[id].kind.TableTrigger?
    ensures var sc, dirty := s.db.schedules[id], s.nodes[me].dirty;
            var seen := if id in dirty then Some(dirty[id]) else sc.lastSeen;
            var pc := Apply(cal, s, By(me, Evaluate(id))).nodes[me].pc;
            && (pc.Checked? || pc == Body)
            && (pc.Checked? <==>
                  && sc.enabled && MayStart(s.db, sc.reg) && sc.triggerTable.Some?
                  && sc.triggerTable.value in s.db.tables && s.db.tables[sc.triggerTable.value] != []
                  && var h := s.db.tables[sc.triggerTable.value];
                     seen.None? || h[|h| - 1] > seen.value)
            && (pc.Checked? ==>
                  var h := s.db.tables[sc.triggerTable.value]; pc == Checked(id, ByTable(h[|h| - 1])))
    // the update counts as seen, for this session, even if the flow cannot start
    ensures var sc, before := s.db.schedules[id], s.nodes[me];
            var seen := if id in before.dirty then Some(before.dirty[id]) else sc.lastSeen;
            var after := Apply(cal, s, By(me, Evaluate(id))).nodes[me];
            if sc.enabled && sc.triggerTable.Some? && UpdatedAfter(s.db, sc.triggerTable.value, seen)
            then var h := s.db.tables[sc.triggerTable.value];
                 after.dirty == before.dirty[id := h[|h| - 1]] && after.now == s.db.clock
            else after == before
  {
    assert CanLaunch(s.db, s.db.schedules[id].reg) <==> MayStart(s.db, s.db.schedules[id].reg);
  }

  /** A table set of at least two tables is launched when each of them was updated, and
      after the last run if there was one. */
  lemma SetLaunchedIff(cal: Calendar, s: Sys, me: int, id: nat)
    requires Evaluating(s, me, id) && s.db.schedules[id].kind.TableSet?
    ensures var sc := s.db.schedules[id];
            var pc := Apply(cal, s, By(me, Evaluate(id))).nodes[me].pc;
            && (pc.Checked? || pc == Body)
            && (pc.Checked? <==>
                  && sc.enabled && MayStart(s.db, sc.reg) && |sc.links| >= 2
                  && forall k :: 0 <= k < |sc.links| ==> UpdatedAfter(s.db, sc.links[k], sc.lastTriggered))
            && (pc.Checked? ==> Apply(cal, s, By(me, Evaluate(id))).nodes[me].now == s.db.clock)
  {
    var sc := s.db.schedules[id];
    assert CanLaunch(s.db, sc.reg) <==> MayStart(s.db, sc.reg);
    assert forall k :: 0 <= k < |sc.links| ==>
      (Fresh(s.db.tables, sc.links[k], sc.lastTriggered) <==> UpdatedAfter(s.db, sc.links[k], sc.lastTriggered));
  }

  predicate UpdatedAfter(db: Db, table: int, last: Option<Time>) {
    && table in db.tables && db.tables[table] != []
    && (last.None? || db.tables[table][|db.tables[table]| - 1] > last.value)
  }

  /** A cron schedule is launched when a slot lies after its cursor, or after its last run,
      or after its creation, whichever is there first, and not after the local clock. */
  lemma CronLaunchedIff(cal: Calendar, s: Sys, me: int, id: nat, slots: iset<Local>)
    requires Evaluating(s, me, id) && s.db.schedules[id].kind.Cron?
    requires s.db.schedules[id].cronExpression.Some? ==>
               NextIsLeast(cal, s.db.schedules[id].cronExpression.value, slots)
    ensures var sc, now := s.db.schedules[id], s.nodes[me].now;
            var zone := if sc.cronTimezone.None? || sc.cronTimezone.value == "" then "UTC" else sc.cronTimezone.value;
            var pc := Apply(cal, s, By(me, Evaluate(id))).nodes[me].pc;
            && (pc.Checked? || pc == Body)
            && (pc.Checked? <==>
                  && sc.enabled && MayStart(s.db, sc.reg)
                  && sc.cronExpression.Some? && sc.cronExpression.value != "" && cal.validZone(zone)
                  && (sc.lastCronSlot.Some? || sc.lastTriggered.Some? || sc.createdAt.Some?)
                  && var base := if sc.lastCronSlot.Some? then sc.lastCronSlot.value
                                 else if sc.lastTriggered.Some? then cal.local(zone, sc.lastTriggered.value)
                                 else cal.local(zone, sc.createdAt.value);
                     exists x :: x in slots && base < x <= cal.local(zone, now))
            && (pc.Checked? ==> pc.cause.ByCron? && pc.cause.cursor == cal.local(zone, now))
  {
    var sc, n := s.db.schedules[id], s.nodes[me];
    assert CanLaunch(s.db, sc.reg) <==> MayStart(s.db, sc.reg);
    var row := SessionRow(s.db, n.dirty, id);
    assert row == sc.(lastSeen := row.lastSeen);
    if row.cronExpression.Some? && row.cronExpression.value != "" && cal.validZone(Zone(row)) &&
       CronBase(cal, row).Some? {
      CronDueIff(cal, row, n.now, slots);
    }
  }

  /** An idle instance that nobody disturbs gets the lock if there is no row, if the row is
      its own, or if the row's heartbeat is more than 90 seconds old; the row is its own
      and fresh afterwards, and otherwise as it was. */
  lemma LockTakenIff(cal: Calendar, s: Sys, me: int)
    requires me in s.nodes && s.nodes[me] == IDLE
    ensures var t := Exec(cal, s, [By(me, ReadLock), By(me, WriteLock)]);
            && (t.nodes[me].pc == Body || t.nodes[me] == IDLE)
            && (t.nodes[me].pc == Body <==>
                  || s.db.lock.None? || s.db.lock.value.holder == me
                  || s.db.clock - s.db.lock.value.heartbeatAt > 90_000_000)
            && t.db == s.db.(lock := t.db.lock)
            && (t.nodes[me] == IDLE ==> t.db.lock == s.db.lock)
            && (t.nodes[me].pc == Body ==>
                  t.db.lock.Some? && t.db.lock.value.holder == me && t.db.lock.value.heartbeatAt == s.db.clock &&
                  t.nodes[me].now == s.db.clock)
  {
    ExecTwo(cal, s, By(me, ReadLock), By(me, WriteLock));
  }

  // --- what a launch leaves behind ---

  /** The run row of a launch: the flow of its schedule, started when the schedule was
      evaluated; running with its process, or ended as a failure if there is none. */
  lemma LaunchLeavesRun(cal: Calendar, s: Sys, me: int, id: nat, cause: Cause, pid: Option<int>)
    requires me in s.nodes && s.nodes[me].pc == Checked(id, cause) && id < |s.db.schedules|
    ensures var t, sc := Exec(cal, s, [By(me, Insert), By(me, Spawn(pid))]), s.db.schedules[id];
            && |t.db.runs| == |s.db.runs| + 1 && t.db.runs[..|s.db.runs|] == s.db.runs
            && var run := t.db.runs[|s.db.runs|];
            && run.reg == sc.reg && run.schedule == Some(id) && run.started == s.nodes[me].now && run.pid == pid
            && (pid.Some? ==> run.ended.None? && run.success.None?)
            && (pid.None? ==> run.ended == Some(s.db.clock) && run.success == Some(false))
            && |t.db.schedules| == |s.db.schedules|
            && t.db.schedules[id].lastTriggered == Some(s.nodes[me].now)
            && forall j :: 0 <= j < |s.db.schedules| ==>
                 var seen := if j in s.nodes[me].dirty then Some(s.nodes[me].dirty[j]) else s.db.schedules[j].lastSeen;
                 t.db.schedules[j] ==
                   s.db.schedules[j].(lastSeen := seen, lastTriggered := t.db.schedules[j].lastTriggered) &&
                 (j != id ==> t.db.schedules[j].lastTriggered == s.db.schedules[j].lastTriggered)
  {
    ExecTwo(cal, s, By(me, Insert), By(me, Spawn(pid)));
  }

  lemma ExecTwo(cal: Calendar, s: Sys, a: Action, b: Action)
    ensures Exec(cal, s, [a, b]) == Apply(cal, Apply(cal, s, a), b)
  {
    ExecCons(cal, s, a, [b]);
    ExecCons(cal, Apply(cal, s, a), b, []);
    assert [a] + [b] == [a, b] && [b] + [] == [b];
  }

  /** A launch that fails to spawn does not block its flow. */
  lemma FailedLaunchFreesFlow(cal: Calendar, s: Sys, me: int, id: nat, cause: Cause)
    requires me in s.nodes && s.nodes[me].pc == Checked(id, cause) && id < |s.db.schedules|
    requires MayStart(s.db, s.db.schedules[id].reg)
    ensures MayStart(Exec(cal, s, [By(me, Insert), By(me, Spawn(None))]).db, s.db.schedules[id].reg)
  {
    LaunchLeavesRun(cal, s, me, id, cause, None);
    var t := Exec(cal, s, [By(me, Insert), By(me, Spawn(None))]);
    ExecTwo(cal, s, By(me, Insert), By(me, Spawn(None)));
    forall k | 0 <= k < |t.db.runs| && t.db.runs[k].reg == s.db.schedules[id].reg ensures t.db.runs[k].ended.Some? {
      if k < |s.db.runs| { assert t.db.runs[..|s.db.runs|][k] == s.db.runs[k]; }
    }
  }

  /** A cron fire goes on to its cursor, and the cursor is the local time of the fire. */
  lemma CronFireSavesCursor(cal: Calendar, s: Sys, me: int, id: nat, cause: Cause, pid: int)
    requires me in s.nodes && s.nodes[me].pc == Checked(id, cause) && id < |s.db.schedules| && cause.ByCron?
    ensures var t := Exec(cal, s, [By(me, Insert), By(me, Spawn(Some(pid))), By(me, SaveCursor)]);
            t.nodes[me].pc == Body && id < |t.db.schedules| && t.db.schedules[id].lastCronSlot == Some(cause.cursor)
  {
    ExecThree(cal, s, By(me, Insert), By(me, Spawn(Some(pid))), By(me, SaveCursor));
  }

  /** A child that completes its run ends that run, with its outcome, and no other; the
      flow may start again exactly when none of its other runs is unfinished. */
  lemma CompletionEndsRun(cal: Calendar, s: Sys, who: int, k: nat, ok: bool)
    requires who in s.nodes && k < |s.db.runs|
    ensures var t, run := Apply(cal, s, By(who, Env(Complete(k, ok)))), s.db.runs[k];
            && |t.db.runs| == |s.db.runs|
            && t.db.runs[k] == run.(ended := Some(s.db.clock), success := Some(ok))
            && (forall j :: 0 <= j < |s.db.runs| && j != k ==> t.db.runs[j] == s.db.runs[j])
            && (MayStart(t.db, run.reg) <==>
                  && run.reg in s.db.regs
                  && forall j :: 0 <= j < |s.db.runs| && j != k && s.db.runs[j].reg == run.reg ==>
                       s.db.runs[j].ended.Some?)
  {
    var t, run := Apply(cal, s, By(who, Env(Complete(k, ok)))), s.db.runs[k];
    assert forall j :: 0 <= j < |s.db.runs| && j != k ==> t.db.runs[j] == s.db.runs[j];
  }

  // --- every enabled schedule gets its turn ---

  predicate Quiet(t: Turn) {
    t.before == [] && t.checked == [] && t.inserted == [] && t.spawned == []
  }

  /** A turn that nobody disturbs launches its schedule if the evaluation says so, saves
      the cursor of a cron fire that spawned, and does nothing else. */
  lemma QuietTurnLaunches(cal: Calendar, s: Sys, me: int, id: nat, t: Turn)
    requires Evaluating(s, me, id) && Quiet(t)
    ensures var checked := Apply(cal, s, By(me, Evaluate(id)));
            var done := Exec(cal, s, TurnActs(cal, me, s, id, t));
            var pc := checked.nodes[me].pc;
            && (pc == Body ==> done == checked)
            && (pc.Checked? && !(pc.cause.ByCron? && t.pid.Some?) ==>
                  done == Exec(cal, checked, [By(me, Insert), By(me, Spawn(t.pid))]))
            && (pc.Checked? && pc.cause.ByCron? && t.pid.Some? ==>
                  done == Exec(cal, checked, [By(me, Insert), By(me, Spawn(t.pid)), By(me, SaveCursor)]))
            && (pc == Body || pc.Checked?)
  {
    var head := [By(me, Evaluate(id))];
    assert Acts(me, true, t.before) + head == head;
    var checked := Apply(cal, s, head[0]);
    assert Exec(cal, s, head) == checked by { ExecCons(cal, s, head[0], []); assert head + [] == head; }
    if checked.nodes[me].pc.Checked? {
      var launch := [By(me, Insert), By(me, Spawn(t.pid))];
      assert LaunchActs(me, t) == launch;
      ExecConcat(cal, s, head, launch);
      ExecTwo(cal, checked, launch[0], launch[1]);
      var spawned := Exec(cal, checked, launch);
      if Pc(spawned, me).CursorDue? {
        ExecConcat(cal, s, head + launch, Acts(me, true, t.spawned) + [By(me, SaveCursor)]);
        ExecThree(cal, checked, launch[0], launch[1], By(me, SaveCursor));
        assert Acts(me, true, t.spawned) + [By(me, SaveCursor)] == [By(me, SaveCursor)];
        ExecCons(cal, spawned, By(me, SaveCursor), []);
        assert [By(me, SaveCursor)] + [] == [By(me, SaveCursor)];
      }
    }
  }

  predicate Evaluates(me: int, acts: seq<Action>, id: nat) {
    By(me, Evaluate(id)) in acts
  }

  lemma {:induction false} ForeignEvaluateNothing(me: int, inside: bool, actions: seq<Action>, id: nat)
    ensures !Evaluates(me, Acts(me, inside, actions), id)
  {
    if actions != [] { ForeignEvaluateNothing(me, inside, actions[..|actions| - 1], id); }
  }

  lemma LaunchEvaluatesNothing(me: int, t: Turn, id: nat)
    ensures !Evaluates(me, LaunchActs(me, t), id)
  {
    ForeignEvaluateNothing(me, true, t.checked, id);
    ForeignEvaluateNothing(me, true, t.inserted, id);
  }

  lemma TurnEvaluates(cal: Calendar, me: int, s: Sys, id: nat, t: Turn, x: nat)
    ensures Evaluates(me, TurnActs(cal, me, s, id, t), x) <==> x == id
  {
    ForeignEvaluateNothing(me, true, t.before, x);
    ForeignEvaluateNothing(me, true, t.spawned, x);
    LaunchEvaluatesNothing(me, t, x);
    assert Evaluates(me, Acts(me, true, t.before) + [By(me, Evaluate(id))], x) <==> x == id;
  }

  lemma {:induction false} LoopEvaluates(cal: Calendar, me: int, s: Sys, kind: Kind, ids: seq<nat>, k: nat,
                                         script: Script, x: nat)
    requires k <= |ids|
    ensures Evaluates(me, LoopActs(cal, me, s, kind, ids, k, script), x) <==> x in ids[k..]
    decreases |ids| - k
  {
    if k < |ids| {
      var head := TurnActs(cal, me, s, ids[k], script.turn(kind, k));
      TurnEvaluates(cal, me, s, ids[k], script.turn(kind, k), x);
      LoopEvaluates(cal, me, Exec(cal, s, head), kind, ids, k + 1, script, x);
      assert ids[k..] == [ids[k]] + ids[k + 1..];
    }
  }

  lemma PhaseEvaluates(cal: Calendar, me: int, s: Sys, kind: Kind, script: Script, x: nat)
    ensures Evaluates(me, PhaseActs(cal, me, s, kind, script), x) <==>
            x < |s.db.schedules| && s.db.schedules[x].enabled && s.db.schedules[x].kind == kind
  {
    var ids := Query(s.db.schedules, kind);
    var head := Acts(me, true, script.start(kind)) + [By(me, ReadClock)];
    ForeignEvaluateNothing(me, true, script.start(kind), x);
    LoopEvaluates(cal, me, Exec(cal, s, head), kind, ids, 0, script, x);
    assert ids[0..] == ids;
  }

  lemma {:induction false} PhasesEvaluate(cal: Calendar, me: int, s: Sys, kinds: seq<Kind>, script: Script, x: nat)
    ensures Evaluates(me, PhasesActs(cal, me, s, kinds, script), x) <==>
            x < |s.db.schedules| && s.db.schedules[x].enabled && s.db.schedules[x].kind in kinds
    decreases |kinds|
  {
    if kinds != [] {
      var head := PhaseActs(cal, me, s, kinds[0], script);
      PhaseEvaluates(cal, me, s, kinds[0], script, x);
      PhasesEvaluate(cal, me, Exec(cal, s, head), kinds[1..], script, x);
      DefinitionsStay(cal, s, head);
      assert kinds == [kinds[0]] + kinds[1..];
    }
  }

  lemma EveryKindHasAPhase(kind: Kind)
    ensures kind in PHASES && PHASES == [Interval, Cron, TableTrigger, TableSet]
  {
    assert PHASES[0] == Interval && PHASES[1] == Cron && PHASES[2] == TableTrigger && PHASES[3] == TableSet;
  }

  lemma LockEvaluatesNothing(me: int, script: Script, x: nat)
    ensures !Evaluates(me, LockActs(me, script), x)
  {
    ForeignEvaluateNothing(me, false, script.locking, x);
  }

  lemma LockedEvaluates(cal: Calendar, me: int, s: Sys, script: Script, x: nat)
    ensures Evaluates(me, PhasesActs(cal, me, s, PHASES, script), x) <==>
            x < |s.db.schedules| && s.db.schedules[x].enabled
  {
    PhasesEvaluate(cal, me, s, PHASES, script, x);
    if x < |s.db.schedules| { EveryKindHasAPhase(s.db.schedules[x].kind); }
  }

  /** A tick that takes the lock evaluates every enabled schedule, of whatever kind, and no
      other. */
  lemma TickEvaluatesEnabled(cal: Calendar, me: int, s: Sys, script: Script, x: nat)
    requires Pc(Exec(cal, s, LockActs(me, script)), me).Body?
    ensures Evaluates(me, TickActs(cal, me, s, script), x) <==> x < |s.db.schedules| && s.db.schedules[x].enabled
  {
    LockEvaluatesNothing(me, script, x);
    LockedEvaluates(cal, me, Exec(cal, s, LockActs(me, script)), script, x);
    DefinitionsStay(cal, s, LockActs(me, script));
  }

  /** What a tick counts as launched: the runs that have a process. */
  lemma {:induction false} LaunchesAreProcesses(runs: seq<Run>)
    ensures Launches(runs) == |set k | 0 <= k < |runs| && runs[k].pid.Some?|
  {
    if runs != [] {
      var rest, last := runs[..|runs| - 1], |runs| - 1;
      LaunchesAreProcesses(rest);
      var all, before := set k | 0 <= k < |runs| && runs[k].pid.Some?, set k | 0 <= k < |rest| && rest[k].pid.Some?;
      assert all == before + if runs[last].pid.Some? then {last} else {};
    }
  }

  /** Nothing foreign is dropped from what the world does between two lines. */
  lemma {:induction false} ForeignActionsHappen(me: int, inside: bool, actions: seq<Action>)
    requires forall k :: 0 <= k < |actions| ==> Foreign(me, inside, actions[k])
    ensures Acts(me, inside, actions) == actions
  {
    if actions != [] {
      ForeignActionsHappen(me, inside, actions[..|actions| - 1]);
      assert actions == actions[..|actions| - 1] + [actions[|actions| - 1]];
    }
  }
}
