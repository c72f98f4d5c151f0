/**
 The advisory lock keeps two instances from being inside a tick at the same time,
 under three conditions on the run.  For each of them a lemma says what happens without
 it.
 */
module SchedulerLease {
  import opened Wrappers
  import opened SchedulerModel

  /** Every tick in progress started at most STALE_THRESHOLD ago. */
  ghost predicate Timely(s: Sys) {
    forall i :: i in s.nodes && Inside(s.nodes[i]) ==> s.db.clock - s.nodes[i].since <= STALE_THRESHOLD
  }

  /** The row read before leads this instance to an UPDATE: it is its own, or stale. */
  predicate Overwrites(n: Instance, me: int) {
    && n.pc.Acquiring? && n.pc.seen.Some?
    && (n.pc.seen.value.holder == me || n.since - n.pc.seen.value.heartbeatAt > STALE_THRESHOLD)
  }

  /** What the environment has to grant: nobody releases the lock in the middle of its
      own tick, a row that an instance updates or deletes is still the row it read, and no
      tick outlives its lease.  An instance that found no row, or gives up, or whose row is
      gone, is free to be overtaken. */
  ghost predicate Disciplined(cal: Calendar, s: Sys, a: Action) {
    a.who in s.nodes ==>
      && (a.op.Release? && Deletes(a.who, s.db, a.op.row) ==>
            !Inside(s.nodes[a.who]) && a.op.row == s.db.lock)
      && (a.op.WriteLock? && Overwrites(s.nodes[a.who], a.who) && s.db.lock.Some? ==>
            s.nodes[a.who].pc.seen == s.db.lock)
      && Timely(Apply(cal, s, a))
  }

  ghost predicate DisciplinedRun(cal: Calendar, s: Sys, run: seq<Action>)
    decreases |run|
  {
    run == [] || (Disciplined(cal, s, run[0]) && DisciplinedRun(cal, Apply(cal, s, run[0]), run[1..]))
  }

  /** An instance inside a tick owns the row, stamped with the start of that tick. */
  ghost predicate HasLease(db: Db, i: int, n: Instance) {
    && (Inside(n) ==> db.lock.Some? && db.lock.value.holder == i && db.lock.value.heartbeatAt == n.since)
    && (!n.pc.Idle? ==> n.since <= n.now <= db.clock)
  }

  ghost predicate LeaseInv(s: Sys) {
    forall i :: i in s.nodes ==> HasLease(s.db, i, s.nodes[i])
  }

  lemma ActorKeepsLease(cal: Calendar, me: int, db: Db, n: Instance, op: Op)
    requires HasLease(db, me, n)
    requires op.Release? && Deletes(me, db, op.row) ==> !Inside(n)
    requires op.WriteLock? && Overwrites(n, me) && db.lock.Some? ==> n.pc.seen == db.lock
    ensures var (db', n') := Step(cal, me, db, n, op);
            HasLease(db', me, n') && db.clock <= db'.clock
  {
  }

  /** The row of an instance inside is written by nobody else while its lease runs. */
  lemma OthersKeepLease(cal: Calendar, me: int, db: Db, n: Instance, op: Op, i: int, other: Instance)
    requires HasLease(db, me, n) && HasLease(db, i, other) && i != me
    requires op.Release? && Deletes(me, db, op.row) ==> op.row == db.lock
    requires op.WriteLock? && Overwrites(n, me) && db.lock.Some? ==> n.pc.seen == db.lock
    requires Inside(other) ==> Step(cal, me, db, n, op).0.clock - other.since <= STALE_THRESHOLD
    ensures HasLease(Step(cal, me, db, n, op).0, i, other)
  {
  }

  lemma LeaseStep(cal: Calendar, s: Sys, a: Action)
    requires LeaseInv(s) && Disciplined(cal, s, a)
    ensures LeaseInv(Apply(cal, s, a))
  {
    if a.who in s.nodes {
      var t := Apply(cal, s, a);
      ActorKeepsLease(cal, a.who, s.db, s.nodes[a.who], a.op);
      forall i | i in s.nodes && i != a.who ensures HasLease(t.db, i, t.nodes[i]) {
        OthersKeepLease(cal, a.who, s.db, s.nodes[a.who], a.op, i, s.nodes[i]);
      }
    }
  }

  /** Mutual exclusion in real time, for any number of instances and any interleaving. */
  lemma {:induction false} LeaseExclusion(cal: Calendar, s: Sys, run: seq<Action>)
    requires LeaseInv(s) && DisciplinedRun(cal, s, run)
    ensures LeaseInv(Exec(cal, s, run)) && Exclusive(Exec(cal, s, run))
    decreases |run|
  {
    if run != [] {
      LeaseStep(cal, s, run[0]);
      LeaseExclusion(cal, Apply(cal, s, run[0]), run[1..]);
    }
  }

  lemma LeaseExclusionFromInit(cal: Calendar, s: Sys, run: seq<Action>)
    requires Init(s) && DisciplinedRun(cal, s, run)
    ensures Exclusive(Exec(cal, s, run))
  {
    LeaseExclusion(cal, s, run);
  }

  /** The threshold of 90 seconds is exact: a takeover attempt made while another tick is in
      progress keeps the exclusion if and only if that tick's lease has not run out. */
  lemma TakeoverSafeIff(cal: Calendar, s: Sys, i: int, j: int)
    requires LeaseInv(s) && i in s.nodes && j in s.nodes && i != j
    requires Inside(s.nodes[i]) && s.nodes[j].pc == Acquiring(s.db.lock)
    ensures Exclusive(Apply(cal, s, By(j, WriteLock))) <==>
            s.nodes[j].since - s.nodes[i].since <= 90_000_000
  {
    var t := Apply(cal, s, By(j, WriteLock));
    assert Inside(t.nodes[i]);
    assert Inside(t.nodes[j]) <==> s.nodes[j].since - s.nodes[i].since > STALE_THRESHOLD;
    assert forall k :: k in s.nodes && Inside(s.nodes[k]) ==> k == i;
  }

  /** `stop()` cancels the task but not the thread that runs the tick, and then
      releases the lock: any idle instance can enter at once. */
  lemma StopDuringTickBreaksExclusion(cal: Calendar, s: Sys, i: int, j: int)
    requires LeaseInv(s) && i in s.nodes && j in s.nodes && i != j
    requires Inside(s.nodes[i]) && s.nodes[j] == IDLE
    ensures !Exclusive(Exec(cal, s, [By(i, Release(s.db.lock)), By(j, ReadLock), By(j, WriteLock)]))
  {
    var s1 := Apply(cal, s, By(i, Release(s.db.lock)));
    assert s1.db.lock.None?;
    var s2 := Apply(cal, s1, By(j, ReadLock));
    var s3 := Apply(cal, s2, By(j, WriteLock));
    assert Inside(s3.nodes[i]) && Inside(s3.nodes[j]);
    ExecThree(cal, s, By(i, Release(s.db.lock)), By(j, ReadLock), By(j, WriteLock));
  }

  /** A release deletes without looking at the holder again.  While `j` is inside, the
      release of any instance keeps the lease exactly when the row it read before, whatever
      that was, is not its own. */
  lemma ReleaseSafeIff(cal: Calendar, s: Sys, i: int, j: int, row: Option<Lock>)
    requires LeaseInv(s) && i in s.nodes && j in s.nodes && Inside(s.nodes[j])
    ensures LeaseInv(Apply(cal, s, By(i, Release(row)))) <==> !(row.Some? && row.value.holder == i)
  {
    var t := Apply(cal, s, By(i, Release(row)));
    assert Inside(t.nodes[j]);
    if LeaseInv(t) { assert HasLease(t.db, j, t.nodes[j]); }
    if !(row.Some? && row.value.holder == i) {
      assert t == s by { assert s.nodes[i := s.nodes[i]] == s.nodes; }
    }
  }

  /** An idle instance reads its own row in order to release it; another takes the row over
      and is inside; the delete removes the other's row, and a third enters.  No tick is
      late, and the release falls between ticks.  Exclusion breaks exactly when the row was
      stale enough to be taken over. */
  lemma ReleaseRace(cal: Calendar, s: Sys, i: int, j: int, k: int)
    requires i in s.nodes && j in s.nodes && k in s.nodes && i != j && j != k && i != k
    requires forall m :: m in s.nodes ==> s.nodes[m] == IDLE
    requires s.db.lock.Some? && s.db.lock.value.holder == i
    ensures var t := Exec(cal, s, [By(j, ReadLock), By(j, WriteLock), By(i, Release(s.db.lock))] + Entry(k));
            Exclusive(t) <==> s.db.clock - s.db.lock.value.heartbeatAt <= STALE_THRESHOLD
  {
    var row := s.db.lock;
    var s2 := Apply(cal, Apply(cal, s, By(j, ReadLock)), By(j, WriteLock));
    var s3 := Apply(cal, s2, By(i, Release(row)));
    var t := Apply(cal, Apply(cal, s3, By(k, ReadLock)), By(k, WriteLock));
    ExecThree(cal, s, By(j, ReadLock), By(j, WriteLock), By(i, Release(row)));
    ExecConcat(cal, s, [By(j, ReadLock), By(j, WriteLock), By(i, Release(row))], Entry(k));
    ExecCons(cal, s3, By(k, ReadLock), [By(k, WriteLock)]);
    ExecCons(cal, Apply(cal, s3, By(k, ReadLock)), By(k, WriteLock), []);
    assert [By(k, ReadLock)] + [By(k, WriteLock)] == Entry(k) && [By(k, WriteLock)] + [] == [By(k, WriteLock)];
    assert s3.db.lock.None? && Inside(t.nodes[k]);
    assert Inside(t.nodes[j]) <==> s.db.clock - row.value.heartbeatAt > STALE_THRESHOLD;
    assert forall m :: m in s.nodes && m != j && m != k ==> !Inside(t.nodes[m]);
  }

  function Entry(k: int): seq<Action> {
    [By(k, ReadLock), By(k, WriteLock)]
  }

  /** The lock code reads, then writes unconditionally.  While `i` is inside, an instance
      that read any row whatever before writes safely exactly when it found no row (its
      insert fails) or a fresh row of another (it gives up). */
  lemma WriteLockSafeIff(cal: Calendar, s: Sys, i: int, j: int)
    requires LeaseInv(s) && i in s.nodes && j in s.nodes && i != j
    requires Inside(s.nodes[i]) && s.nodes[j].pc.Acquiring?
    ensures var seen := s.nodes[j].pc.seen;
            Exclusive(Apply(cal, s, By(j, WriteLock))) <==>
            seen.None? ||
            (seen.value.holder != j && s.nodes[j].since - seen.value.heartbeatAt <= STALE_THRESHOLD)
  {
    var t := Apply(cal, s, By(j, WriteLock));
    assert Inside(t.nodes[i]);
    assert Inside(t.nodes[j]) <==> Overwrites(s.nodes[j], j);
    assert forall k :: k in s.nodes && Inside(s.nodes[k]) ==> k == i;
  }

  /** Two instances that read the same row, whoever holds it, both end up inside exactly
      when that row is stale. */
  lemma SharedReadRace(cal: Calendar, s: Sys, i: int, j: int)
    requires i in s.nodes && j in s.nodes && i != j && s.nodes[i] == IDLE && s.nodes[j] == IDLE
    requires s.db.lock.Some?
    ensures var t := Exec(cal, s, Race(i, j));
            (Inside(t.nodes[i]) && Inside(t.nodes[j]) <==>
              s.db.clock - s.db.lock.value.heartbeatAt > STALE_THRESHOLD)
  {
    ExecFour(cal, s, By(i, ReadLock), By(j, ReadLock), By(i, WriteLock), By(j, WriteLock));
  }

  /** An instance that slept past the threshold reads its own row; before it refreshes the
      row another takes it over.  Its heartbeat lets it in beside the other, under a row
      that is not its own. */
  lemma OwnRowRace(cal: Calendar, s: Sys, i: int, j: int)
    requires i in s.nodes && j in s.nodes && i != j && s.nodes[i] == IDLE && s.nodes[j] == IDLE
    requires s.db.lock.Some? && s.db.lock.value.holder == j
    requires s.db.clock - s.db.lock.value.heartbeatAt > STALE_THRESHOLD
    ensures var t := Exec(cal, s, Race(i, j));
            !Exclusive(t) && t.db.lock == Some(Lock(i, s.db.clock, s.db.clock)) && !LeaseInv(t)
  {
    ExecFour(cal, s, By(i, ReadLock), By(j, ReadLock), By(i, WriteLock), By(j, WriteLock));
    var t := Exec(cal, s, Race(i, j));
    assert Inside(t.nodes[i]) && Inside(t.nodes[j]);
  }

  /** A missing row is different: the primary key makes the second insert fail.  Two
      instances that start together meet the hypotheses of every result on runs. */
  lemma EmptyRowRace(cal: Calendar, s: Sys, i: int, j: int)
    requires i in s.nodes && j in s.nodes && i != j && s.nodes[i] == IDLE && s.nodes[j] == IDLE
    requires s.db.lock.None? && LeaseInv(s)
    ensures var t := Exec(cal, s, Race(i, j));
            LeaseInv(t) && Exclusive(t) && Inside(t.nodes[i]) && t.nodes[j] == IDLE
    ensures DisciplinedRun(cal, s, Race(i, j))
  {
    ExecFour(cal, s, By(i, ReadLock), By(j, ReadLock), By(i, WriteLock), By(j, WriteLock));
    var a, b, c, d := By(i, ReadLock), By(j, ReadLock), By(i, WriteLock), By(j, WriteLock);
    var s1 := Apply(cal, s, a);
    var s2 := Apply(cal, s1, b);
    var s3 := Apply(cal, s2, c);
    assert Disciplined(cal, s, a) && Disciplined(cal, s1, b) && Disciplined(cal, s2, c) && Disciplined(cal, s3, d);
    assert Race(i, j)[1..] == [b, c, d] && [b, c, d][1..] == [c, d] && [c, d][1..] == [d] && [d][1..] == [];
    assert DisciplinedRun(cal, s3, [d]);
    assert DisciplinedRun(cal, s2, [c, d]);
    assert DisciplinedRun(cal, s1, [b, c, d]);
  }

  function Race(i: int, j: int): seq<Action> {
    [By(i, ReadLock), By(j, ReadLock), By(i, WriteLock), By(j, WriteLock)]
  }

  /** What exclusion is for: two instances inside that find the same schedule due
      leave two active runs of one flow. */
  lemma TwoInsideLaunchTwice(cal: Calendar, s: Sys, i: int, j: int, id: nat)
    requires i in s.nodes && j in s.nodes && i != j && id < |s.db.schedules|
    requires s.nodes[i].pc.Body? && EvaluateStep(cal, s.db, s.nodes[i], id).pc.Checked?
    requires s.nodes[j].pc.Body? && EvaluateStep(cal, s.db, s.nodes[j], id).pc.Checked?
    ensures !AtMostOneActive(
              Exec(cal, s, [By(i, Evaluate(id)), By(j, Evaluate(id)), By(i, Insert), By(j, Insert)]).db.runs)
  {
    ExecFour(cal, s, By(i, Evaluate(id)), By(j, Evaluate(id)), By(i, Insert), By(j, Insert));
    var t := Apply(cal, Apply(cal, s, By(i, Evaluate(id))), By(j, Evaluate(id)));
    var u := Apply(cal, Apply(cal, t, By(i, Insert)), By(j, Insert));
    var n := |s.db.runs|;
    assert |u.db.runs| == n + 2;
    assert u.db.runs[n].ended.None? && u.db.runs[n + 1].ended.None?;
    assert u.db.runs[n].reg == u.db.runs[n + 1].reg == s.db.schedules[id].reg;
  }

  // --- unrolling concrete runs ---

  lemma {:induction false} ExecConcat(cal: Calendar, s: Sys, a: seq<Action>, b: seq<Action>)
    ensures Exec(cal, s, a + b) == Exec(cal, Exec(cal, s, a), b)
    decreases |a|
  {
    if a == [] {
      assert a + b == b;
    } else {
      assert (a + b)[1..] == a[1..] + b;
      ExecConcat(cal, Apply(cal, s, a[0]), a[1..], b);
    }
  }

  lemma ExecLast(cal: Calendar, s: Sys, a: seq<Action>, last: Action)
    ensures Exec(cal, s, a + [last]) == Apply(cal, Exec(cal, s, a), last)
  {
    ExecConcat(cal, s, a, [last]);
  }

  lemma ExecCons(cal: Calendar, s: Sys, a: Action, rest: seq<Action>)
    ensures Exec(cal, s, [a] + rest) == Exec(cal, Apply(cal, s, a), rest)
  {
    assert ([a] + rest)[1..] == rest;
  }

  lemma ExecThree(cal: Calendar, s: Sys, a: Action, b: Action, c: Action)
    ensures Exec(cal, s, [a, b, c]) == Apply(cal, Apply(cal, Apply(cal, s, a), b), c)
  {
    ExecCons(cal, s, a, [b, c]);
    ExecCons(cal, Apply(cal, s, a), b, [c]);
    ExecCons(cal, Apply(cal, Apply(cal, s, a), b), c, []);
    assert [a] + [b, c] == [a, b, c] && [b] + [c] == [b, c] && [c] + [] == [c];
  }

  lemma ExecFour(cal: Calendar, s: Sys, a: Action, b: Action, c: Action, d: Action)
    ensures Exec(cal, s, [a, b, c, d]) == Apply(cal, Apply(cal, Apply(cal, Apply(cal, s, a), b), c), d)
  {
    ExecCons(cal, s, a, [b, c, d]);
    ExecThree(cal, Apply(cal, s, a), b, c, d);
    assert [a] + [b, c, d] == [a, b, c, d];
  }
}
