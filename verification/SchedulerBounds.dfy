/**
 How often a schedule can run: each kind of trigger gives its runs strictly
 increasing keys, so the runs are at most as many as the possible keys.
 */
module SchedulerBounds {
  import opened Wrappers
  import opened SchedulerModel
  import opened SchedulerLease
  import opened SchedulerRuns
  import opened SchedulerCron

  ghost function Count(runs: seq<Run>, pick: Run -> bool): nat {
    if runs == [] then 0
    else Count(runs[..|runs| - 1], pick) + if pick(runs[|runs| - 1]) then 1 else 0
  }

  /** It counts the rows that are picked. */
  lemma {:induction false} CountIsCardinality(runs: seq<Run>, pick: Run -> bool)
    ensures Count(runs, pick) == |set k | 0 <= k < |runs| && pick(runs[k])|
  {
    if runs != [] {
      var rest, last := runs[..|runs| - 1], |runs| - 1;
      CountIsCardinality(rest, pick);
      var picked, before := set k | 0 <= k < |runs| && pick(runs[k]), set k | 0 <= k < |rest| && pick(rest[k]);
      assert picked == before + if pick(runs[last]) then {last} else {};
    }
  }

  /** Pigeonhole for keys that increase along the run table. */
  lemma {:induction false} CountAtMost(runs: seq<Run>, pick: Run -> bool, key: Run -> int, keys: set<int>)
    requires forall a :: 0 <= a < |runs| && pick(runs[a]) ==> key(runs[a]) in keys
    requires forall a, b :: 0 <= a < b < |runs| && pick(runs[a]) && pick(runs[b]) ==> key(runs[a]) < key(runs[b])
    ensures Count(runs, pick) <= |keys|
  {
    if runs != [] {
      var last := runs[|runs| - 1];
      var rest := runs[..|runs| - 1];
      if pick(last) {
        CountAtMost(rest, pick, key, keys - {key(last)});
        assert |keys - {key(last)}| == |keys| - 1;
      } else {
        CountAtMost(rest, pick, key, keys);
      }
    }
  }

  function Below(n: nat): (r: set<int>)
    ensures forall k :: k in r <==> 0 <= k < n
    ensures |r| == n
  {
    if n == 0 then {} else Below(n - 1) + {n - 1}
  }

  ghost predicate Reachable(cal: Calendar, s: Sys, run: seq<Action>) {
    Init(s) && DisciplinedRun(cal, s, run)
  }

  predicate OfSchedule(r: Run, id: nat) {
    r.schedule == Some(id)
  }

  lemma DivFacts(x: int, d: int)
    requires d > 0
    ensures d * (x / d) <= x < d * (x / d) + d
  {
  }

  lemma MulOrder(p: int, q: int, d: int)
    requires p <= q && d > 0
    ensures d * p <= d * q
  {
  }

  lemma DivIncreases(x: int, y: int, d: int)
    requires d > 0 && y - x >= d
    ensures x / d < y / d
  {
    DivFacts(x, d);
    DivFacts(y, d);
    if y / d <= x / d { MulOrder(y / d, x / d, d); }
  }

  lemma DivOrder(x: int, y: int, d: int)
    requires d > 0 && 0 <= x <= y
    ensures 0 <= x / d <= y / d
  {
    DivFacts(x, d);
    DivFacts(y, d);
    if y / d < x / d { MulOrder(y / d + 1, x / d, d); }
    if x / d < 0 { MulOrder(x / d, -1, d); }
  }

  /** An interval schedule starts at most span / interval + 1 runs in any window of
      `span` microseconds, failed launches included. */
  lemma IntervalRunsBounded(cal: Calendar, s: Sys, run: seq<Action>, id: nat, lo: Time, span: nat)
    requires Reachable(cal, s, run)
    requires id < |s.db.schedules| && s.db.schedules[id].kind.Interval?
    requires s.db.schedules[id].intervalSeconds.Some? && s.db.schedules[id].intervalSeconds.value > 0
    ensures Count(Exec(cal, s, run).db.runs, r => OfSchedule(r, id) && lo <= r.started <= lo + span)
            <= span / (s.db.schedules[id].intervalSeconds.value * SECOND) + 1
  {
    var t := Exec(cal, s, run);
    InvariantsFromInit(s);
    RunsFollow(cal, s, run);
    DefinitionsStay(cal, s, run);
    var d := s.db.schedules[id].intervalSeconds.value * SECOND;
    DivOrder(0, span, d);
    var pick := (r: Run) => OfSchedule(r, id) && lo <= r.started <= lo + span;
    var key := (r: Run) => (r.started - lo) / d;
    var keys := Below(span / d + 1);
    forall a | 0 <= a < |t.db.runs| && pick(t.db.runs[a]) ensures key(t.db.runs[a]) in keys {
      DivOrder(t.db.runs[a].started - lo, span, d);
    }
    forall a, b | 0 <= a < b < |t.db.runs| && pick(t.db.runs[a]) && pick(t.db.runs[b])
      ensures key(t.db.runs[a]) < key(t.db.runs[b])
    {
      assert Follows(t.db, t.db.runs[a], t.db.runs[b]);
      assert SameDefinition(s.db.schedules[id], t.db.schedules[id]);
      DivIncreases(t.db.runs[a].started - lo, t.db.runs[b].started - lo, d);
    }
    CountAtMost(t.db.runs, pick, key, keys);
  }

  /** A table trigger never runs more often than the table had distinct stamps. */
  lemma TableRunsBounded(cal: Calendar, s: Sys, run: seq<Action>, id: nat, table: int)
    requires Reachable(cal, s, run)
    requires id < |s.db.schedules| && s.db.schedules[id].kind.TableTrigger?
    requires s.db.schedules[id].triggerTable == Some(table)
    requires table in Exec(cal, s, run).db.tables
    ensures var db := Exec(cal, s, run).db;
            Count(db.runs, r => OfSchedule(r, id)) <= |set stamp | stamp in db.tables[table]|
  {
    var t := Exec(cal, s, run);
    InvariantsFromInit(s);
    RunsFollow(cal, s, run);
    DefinitionsStay(cal, s, run);
    assert SameDefinition(s.db.schedules[id], t.db.schedules[id]);
    forall a | 0 <= a < |t.db.runs| && OfSchedule(t.db.runs[a], id)
      ensures TableKey(t.db.runs[a]) in t.db.tables[table]
    {
      assert Explained(t.db, t.db.runs[a]);
    }
    forall a, b | 0 <= a < b < |t.db.runs| && OfSchedule(t.db.runs[a], id) && OfSchedule(t.db.runs[b], id)
      ensures TableKey(t.db.runs[a]) < TableKey(t.db.runs[b])
    {
      assert Follows(t.db, t.db.runs[a], t.db.runs[b]);
    }
    CountAtMost(t.db.runs, r => OfSchedule(r, id), r => TableKey(r), set stamp | stamp in t.db.tables[table]);
  }

  function TableKey(r: Run): int {
    if r.cause.Some? && r.cause.value.ByTable? then r.cause.value.stamp else 0
  }

  /** A table-set trigger never runs more often than any one of its tables was updated:
      between two runs every linked table got a new stamp. */
  lemma SetRunsBounded(cal: Calendar, s: Sys, run: seq<Action>, id: nat, j: nat)
    requires Reachable(cal, s, run)
    requires id < |s.db.schedules| && s.db.schedules[id].kind.TableSet? && j < |s.db.schedules[id].links|
    requires s.db.schedules[id].links[j] in Exec(cal, s, run).db.tables
    ensures var db := Exec(cal, s, run).db;
            Count(db.runs, r => OfSchedule(r, id)) <= |set stamp | stamp in db.tables[s.db.schedules[id].links[j]]|
  {
    var t := Exec(cal, s, run);
    InvariantsFromInit(s);
    RunsFollow(cal, s, run);
    DefinitionsStay(cal, s, run);
    assert SameDefinition(s.db.schedules[id], t.db.schedules[id]);
    var table := s.db.schedules[id].links[j];
    forall a | 0 <= a < |t.db.runs| && OfSchedule(t.db.runs[a], id)
      ensures SetKey(t.db.runs[a], j) in t.db.tables[table]
    {
      assert Explained(t.db, t.db.runs[a]);
    }
    forall a, b | 0 <= a < b < |t.db.runs| && OfSchedule(t.db.runs[a], id) && OfSchedule(t.db.runs[b], id)
      ensures SetKey(t.db.runs[a], j) < SetKey(t.db.runs[b], j)
    {
      assert Explained(t.db, t.db.runs[a]) && Explained(t.db, t.db.runs[b]);
      assert Follows(t.db, t.db.runs[a], t.db.runs[b]);
    }
    CountAtMost(t.db.runs, r => OfSchedule(r, id), r => SetKey(r, j), set stamp | stamp in t.db.tables[table]);
  }

  function SetKey(r: Run, j: nat): int {
    if r.cause.Some? && r.cause.value.BySet? && j < |r.cause.value.stamps| then r.cause.value.stamps[j] else 0
  }

  /** The successful fires of a cron schedule are at most as many as the slots between
      the base of the first and the cursor of the last of them. */
  lemma CronFiresBounded(cal: Calendar, s: Sys, run: seq<Action>, id: nat, slots: iset<Local>, passed: set<Local>)
    requires Reachable(cal, s, run) && NextIsAbove(cal)
    requires CursorsSaved(cal, s, run)
    requires id < |s.db.schedules| && s.db.schedules[id].cronExpression.Some?
    requires NextIsLeast(cal, s.db.schedules[id].cronExpression.value, slots)
    requires CoversSlots(Exec(cal, s, run).db.runs, id, slots, passed)
    ensures Count(Exec(cal, s, run).db.runs, r => FiredBy(r, id)) <= |passed|
  {
    var t := Exec(cal, s, run);
    InvariantsFromInit(s);
    CronInvFromInit(cal, s);
    CronSlotsIncrease(cal, s, run);
    DefinitionsStay(cal, s, run);
    assert SameDefinition(s.db.schedules[id], t.db.schedules[id]);
    forall a | 0 <= a < |t.db.runs| && FiredBy(t.db.runs[a], id) ensures SlotKey(t.db.runs[a]) in passed {
      var cause := t.db.runs[a].cause.value;
      assert SlotOk(cal, t.db, id, cause);
      assert cal.next(s.db.schedules[id].cronExpression.value, cause.base) == Some(cause.slot);
      assert cause.slot in slots && t.db.runs[a].cause.value.base < cause.slot <= t.db.runs[a].cause.value.cursor;
    }
    forall a, b | 0 <= a < b < |t.db.runs| && FiredBy(t.db.runs[a], id) && FiredBy(t.db.runs[b], id)
      ensures SlotKey(t.db.runs[a]) < SlotKey(t.db.runs[b])
    {
      assert SlotOk(cal, t.db, id, t.db.runs[a].cause.value);
    }
    CountAtMost(t.db.runs, r => FiredBy(r, id), r => SlotKey(r), passed);
  }

  /** `passed` has every slot after the base of a fire and up to the cursor of a later one. */
  ghost predicate CoversSlots(runs: seq<Run>, id: nat, slots: iset<Local>, passed: set<Local>) {
    forall a, b, x ::
      0 <= a <= b < |runs| && FiredBy(runs[a], id) && FiredBy(runs[b], id) && x in slots
      && runs[a].cause.value.base < x <= runs[b].cause.value.cursor
      ==> x in passed
  }

  predicate FiredBy(r: Run, id: nat) {
    Fired(r) && r.schedule == Some(id)
  }

  function SlotKey(r: Run): int {
    if CronRun(r) then r.cause.value.slot else 0
  }

  // --- schedules keep their definition ---

  ghost predicate SameDefinition(sc: Schedule, sc': Schedule) {
    sc'.(lastTriggered := sc.lastTriggered, lastSeen := sc.lastSeen, lastCronSlot := sc.lastCronSlot) == sc
  }

  ghost predicate SameDefinitions(db: Db, db': Db) {
    |db.schedules| == |db'.schedules| &&
    forall id :: 0 <= id < |db.schedules| ==> SameDefinition(db.schedules[id], db'.schedules[id])
  }

  lemma StepKeepsDefinitions(cal: Calendar, me: int, db: Db, n: Instance, op: Op)
    ensures SameDefinitions(db, Step(cal, me, db, n, op).0)
  {
  }

  lemma DefinitionsStayStep(cal: Calendar, s: Sys, a: Action)
    ensures SameDefinitions(s.db, Apply(cal, s, a).db)
  {
    if a.who in s.nodes { StepKeepsDefinitions(cal, a.who, s.db, s.nodes[a.who], a.op); }
  }

  lemma {:induction false} DefinitionsStay(cal: Calendar, s: Sys, run: seq<Action>)
    ensures SameDefinitions(s.db, Exec(cal, s, run).db)
    decreases |run|
  {
    if run != [] {
      DefinitionsStayStep(cal, s, run[0]);
      DefinitionsStay(cal, Apply(cal, s, run[0]), run[1..]);
    }
  }
}
