/**
 shared/db_reader.py: a read that races connectorx against a delayed SQLAlchemy
 read.  Times are milliseconds of the monotonic clock.

 The threads are the environment: a plan says if and when an attempt settles.
 Every line that looks at an attempt or at the clock may be delayed by any amount,
 so an attempt may settle between any two lines.
 */
module HedgedRead {
  import opened Wrappers

  type Ms = int

  const POLL_INTERVAL: Ms := 250
  const MIN_PATIENCE: Ms := 30_000

  datatype Source = ConnectorX | SqlAlchemy

  datatype Outcome<+T> = Frame(frame: T) | Error

  datatype Plan<+T> = Hangs | Settles(after: nat, outcome: Outcome<T>)

  /** A started attempt. */
  datatype Attempt<+T> = Attempt(plan: Plan<T>, startedAt: Ms) {
    predicate Done(now: Ms) {
      plan.Settles? && startedAt + plan.after <= now
    }
  }

  /** The environment of one call: the fate of the two attempts, the delay before each
      observation, and the answers of `cancel_check`. */
  datatype World<T> = World(cx: Plan<T>, sa: Plan<T>, start: Ms, lag: nat -> nat, cancels: nat -> bool)

  datatype Answer<+T> =
    | Returned(source: Source, frame: T)
    | BothFailed
    | GaveUp
    | Cancelled
    | StillWaiting

  /** When things happened.  `looked` is the last time connectorx was looked at,
      `failureSeen` the time the SQLAlchemy error was noticed, `polls` the number of
      completed rounds of the loop. */
  datatype Trace = Trace(
    cxStart: Option<Ms>, saStart: Option<Ms>, looked: Ms, failureSeen: Option<Ms>, end: Ms, polls: nat)

  function Max(a: int, b: int): int {
    if a < b then b else a
  }

  function Patience(delay: Ms): Ms {
    Max(delay, MIN_PATIENCE)
  }

  predicate SettledBy<T>(plan: Plan<T>, start: Option<Ms>, at: Ms) {
    start.Some? && plan.Settles? && start.value + plan.after <= at
  }

  predicate FailedBy<T>(plan: Plan<T>, start: Option<Ms>, at: Ms) {
    SettledBy(plan, start, at) && plan.outcome.Error?
  }

  // --- how many rounds a wait can take ---

  /** How many rounds of POLL_INTERVAL a wait of `d` takes. */
  function Rounds(d: int): nat
    decreases Max(d, 0)
  {
    if d <= 0 then 0 else 1 + Rounds(d - POLL_INTERVAL)
  }

  lemma RoundsAreQuotient(d: nat)
    ensures Rounds(d) == (d + 249) / 250
  {
  }

  lemma RoundsShrink(d: int, e: int)
    requires e <= d
    ensures Rounds(e) <= Rounds(d)
    ensures d > 0 && e <= d - POLL_INTERVAL ==> Rounds(e) < Rounds(d)
    decreases Max(d, 0)
  {
    if d > 0 { RoundsShrink(d - POLL_INTERVAL, e - POLL_INTERVAL); }
  }

  /** The loop ends within this many rounds once SQLAlchemy settles `after` its start. */
  function RoundLimit(delay: Ms, after: nat): nat {
    Rounds(delay) + Rounds(after) + Rounds(Patience(delay)) + 7
  }

  lemma RoundLimitInMs(delay: nat, after: nat)
    ensures RoundLimit(delay, after) ==
            (delay + 249) / 250 + (after + 249) / 250 + (if delay <= 30_000 then 120 else (delay + 249) / 250) + 7
  {
    RoundsAreQuotient(delay);
    RoundsAreQuotient(after);
    RoundsAreQuotient(30_000);
  }

  function Live<T>(a: Option<Attempt<T>>, now: Ms): nat {
    if a.Some? && !a.value.Done(now) then 1 else 0
  }

  /** The variables of the loop. */
  datatype State<T> = State(
    cx: Option<Attempt<T>>, sa: Option<Attempt<T>>, hedgeAt: Ms, giveUpAt: Option<Ms>,
    cxStart: Option<Ms>, failureSeen: Option<Ms>, looked: Ms, now: Ms, lags: nat)

  /** The measure behind `RoundLimit`: each round either waits a full poll interval
      towards the current deadline, or is woken early by an attempt settling for good. */
  function Budget<T>(s: State<T>, delay: Ms, after: nat): nat {
    Live(s.cx, s.now) + Live(s.sa, s.now) +
    if s.giveUpAt.Some? then Rounds(s.giveUpAt.value - s.now) + 1
    else if s.sa.Some? then Rounds(s.sa.value.startedAt + after - s.now) + Rounds(Patience(delay)) + 3
    else Rounds(s.hedgeAt - s.now) + Rounds(after) + Rounds(Patience(delay)) + 5
  }

  /** Lines 164-168 of db_reader.py: wait for the first unsettled attempt, at most a poll interval. */
  function Wake<T>(cx: Option<Attempt<T>>, sa: Option<Attempt<T>>, now: Ms): (r: Ms)
    ensures now < r <= now + 250
    ensures r < now + 250 ==> Live(cx, r) + Live(sa, r) < Live(cx, now) + Live(sa, now)
  {
    if cx.Some? && !cx.value.Done(now) then Until(cx.value, now)
    else if sa.Some? && !sa.value.Done(now) then Until(sa.value, now)
    else now + POLL_INTERVAL
  }

  function Until<T>(a: Attempt<T>, now: Ms): (r: Ms)
    requires !a.Done(now)
    ensures now < r <= now + 250
    ensures r < now + 250 ==> a.Done(r)
  {
    if a.plan.Settles? && a.startedAt + a.plan.after < now + POLL_INTERVAL
    then a.startedAt + a.plan.after
    else now + POLL_INTERVAL
  }

  /** What a round that does not answer does to the variables before it waits.  Connectorx
      is dropped exactly when it was seen to have failed, and then SQLAlchemy is running;
      SQLAlchemy is also started when the hedge deadline has come, and is not waited for
      once it settled, unless connectorx can still answer. */
  ghost predicate RoundChange<T>(s: State<T>, t: State<T>, world: World<T>, delay: Ms) {
    && t.hedgeAt == s.hedgeAt && s.now <= t.looked <= t.now
    && (s.cx.Some? && FailedBy(world.cx, s.cxStart, t.looked) ==> t.cx.None? && t.sa.Some?)
    && (s.cx.Some? && !FailedBy(world.cx, s.cxStart, t.looked) ==> t.cx == s.cx && !s.cx.value.Done(t.looked))
    && (s.cx.None? ==> t.cx.None? && t.sa == s.sa && s.sa.Some? && !s.sa.value.Done(s.now))
    && (s.sa.Some? ==> t.sa == s.sa)
    && (s.sa.None? && t.sa.Some? ==> s.now <= t.sa.value.startedAt <= t.now)
    && (s.sa.None? && s.now >= s.hedgeAt ==> t.sa.Some?)
    && (t.giveUpAt.None? && s.sa.Some? ==> !s.sa.value.Done(s.now))
    && (s.giveUpAt.Some? ==> s.sa.Some? && t.giveUpAt == s.giveUpAt && s.now < s.giveUpAt.value)
    && (t.giveUpAt.Some? ==> t.sa.Some?)
    && (s.giveUpAt.None? && t.giveUpAt.Some? ==> t.giveUpAt.value <= t.now + Patience(delay))
  }

  /** Every round that does not answer uses up some of the budget. */
  lemma RoundUsesBudget<T>(s: State<T>, t: State<T>, world: World<T>, delay: Ms, after: nat)
    requires RoundChange(s, t, world, delay) && world.sa.Settles? && world.sa.after == after
    requires Valid(s, world, delay)
    ensures Budget(t.(now := Wake(t.cx, t.sa, t.now)), delay, after) < Budget(s, delay, after)
  {
    var woken := Wake(t.cx, t.sa, t.now);
    if s.giveUpAt.Some? {
      RoundsShrink(s.giveUpAt.value - s.now, s.giveUpAt.value - woken);
    } else if t.giveUpAt.Some? {
      RoundsShrink(Patience(delay), t.giveUpAt.value - woken);
    } else if s.sa.Some? {
      RoundsShrink(s.sa.value.startedAt + after - s.now, s.sa.value.startedAt + after - woken);
    } else if t.sa.Some? {
      RoundsShrink(after, t.sa.value.startedAt + after - woken);
    } else {
      RoundsShrink(s.hedgeAt - s.now, s.hedgeAt - woken);
    }
  }

  // --- the same for a connectorx attempt that will answer ---

  /** The connectorx attempt that is going to give a frame. */
  predicate WillAnswer<T>(world: World<T>) {
    world.cx.Settles? && world.cx.outcome.Frame?
  }

  /** How many more rounds it can take until it has settled. */
  function AnswerBudget<T>(s: State<T>): nat {
    if s.cx.Some? && s.cx.value.plan.Settles? then Rounds(s.cx.value.startedAt + s.cx.value.plan.after - s.now) else 0
  }

  lemma RoundNearsAnswer<T>(s: State<T>, t: State<T>, world: World<T>, delay: Ms)
    requires Valid(s, world, delay) && RoundChange(s, t, world, delay) && s.cx.Some? && WillAnswer(world)
    ensures t.cx == s.cx && AnswerBudget(t.(now := Wake(t.cx, t.sa, t.now))) < AnswerBudget(s)
  {
    SettlesSooner(t.cx.value, s.now, t.now, Wake(t.cx, t.sa, t.now));
  }

  // --- the fallback of a connectorx attempt that fails ---

  /** How many more rounds it can take when connectorx fails, whatever the hedge delay:
      until the failure, and until SQLAlchemy settles `after` its start. */
  function FailBudget<T>(s: State<T>, after: nat): nat {
    if s.cx.Some? && s.cx.value.plan.Settles? then
      Rounds(s.cx.value.startedAt + s.cx.value.plan.after - s.now) + Rounds(after) + 1
    else if s.sa.Some? then Rounds(s.sa.value.startedAt + after - s.now)
    else 0
  }

  lemma RoundNearsFallback<T>(s: State<T>, t: State<T>, world: World<T>, delay: Ms)
    requires Valid(s, world, delay) && RoundChange(s, t, world, delay)
    requires s.cx.Some? ==> world.cx.Settles? && world.cx.outcome.Error?
    requires world.sa.Settles?
    ensures FailBudget(t.(now := Wake(t.cx, t.sa, t.now)), world.sa.after) < FailBudget(s, world.sa.after)
  {
    var woken := Wake(t.cx, t.sa, t.now);
    if s.cx.None? {
      SettlesSooner(t.sa.value, s.now, t.now, woken);
    } else if t.cx.None? {
      RoundsShrink(world.sa.after, t.sa.value.startedAt + world.sa.after - woken);
    } else {
      SettlesSooner(t.cx.value, s.now, t.now, woken);
    }
  }

  /** A wait for an attempt that had not settled takes up a round, or the rest of it. */
  lemma SettlesSooner<T>(a: Attempt<T>, before: Ms, now: Ms, woken: Ms)
    requires a.plan.Settles? && !a.Done(before) && before <= now < woken
    requires a.Done(now) || woken == Until(a, now)
    ensures Rounds(a.startedAt + a.plan.after - woken) < Rounds(a.startedAt + a.plan.after - before)
  {
    var settles := a.startedAt + a.plan.after;
    RoundsShrink(settles - before, if a.Done(now) then 0 else settles - woken);
  }

  // --- without any delay between the lines ---

  ghost predicate NoLag<T>(world: World<T>) {
    forall k :: world.lag(k) == 0
  }

  /** `w` after the start, the hedge deadline is less than a poll interval ago, and
      connectorx has not failed before. */
  predicate InTime<T>(world: World<T>, delay: Ms, w: Ms) {
    && 0 <= w && (w < 250 || w < delay + 250)
    && (world.cx.Settles? ==> w <= world.cx.after)
  }

  /** The moment to start SQLAlchemy: that of the failure, if it comes before the deadline. */
  predicate Prompt<T>(world: World<T>, delay: Ms, w: Ms) {
    InTime(world, delay, w) && (world.cx.Settles? && world.cx.after <= delay ==> w == world.cx.after)
  }

  /** SQLAlchemy was started at its moment, or it is not too late for it now. */
  predicate Punctual<T>(sa: Option<Ms>, now: Ms, world: World<T>, delay: Ms) {
    if sa.Some? then Prompt(world, delay, sa.value - world.start) else InTime(world, delay, now - world.start)
  }

  /** A round in which no time passes. */
  ghost predicate Instant<T>(s: State<T>, t: State<T>, waiting: bool) {
    && t.now == s.now
    && (s.sa.None? && t.sa.Some? ==>
          t.sa.value.startedAt == s.now && ((s.cx.Some? && s.cx.value.Done(s.now)) || s.now >= s.hedgeAt))
    && (waiting && t.sa.None? ==> t.cx == s.cx && s.cx.Some? && !s.cx.value.Done(s.now) && s.now < s.hedgeAt)
  }

  function Started<T>(sa: Option<Attempt<T>>): Option<Ms> {
    if sa.Some? then Some(sa.value.startedAt) else None
  }

  /** A hedged read without delays is punctual. */
  ghost predicate OnTime<T>(s: State<T>, world: World<T>, delay: Ms) {
    NoLag(world) && s.cxStart.Some? ==>
      s.cxStart.value == world.start && s.hedgeAt == world.start + delay && Punctual(Started(s.sa), s.now, world, delay)
  }

  lemma InstantIsPunctual<T>(s: State<T>, t: State<T>, waiting: bool, world: World<T>, delay: Ms)
    requires Valid(s, world, delay) && OnTime(s, world, delay) && (NoLag(world) ==> Instant(s, t, waiting))
    requires t.cxStart == s.cxStart && (s.sa.Some? ==> t.sa == s.sa) && t.hedgeAt == s.hedgeAt
    ensures OnTime(t, world, delay)
    ensures waiting ==> OnTime(t.(now := Wake(t.cx, t.sa, t.now)), world, delay)
  {
  }

  /** What holds of the variables at the head of the loop. */
  ghost predicate Valid<T>(s: State<T>, world: World<T>, delay: Ms) {
    && s.looked <= s.now && (s.sa.Some? ==> s.sa.value.startedAt <= s.now)
    && (s.cxStart.Some? ==> s.hedgeAt >= s.cxStart.value + delay)
    && (s.sa.Some? ==> s.sa.value.plan == world.sa)
    && (s.cx.Some? ==> s.cx.value.plan == world.cx && s.cxStart == Some(s.cx.value.startedAt))
    && (s.cx.None? ==> s.sa.Some?)
    && (s.cxStart.Some? && s.cx.None? ==> FailedBy(world.cx, s.cxStart, s.looked))
    && (s.cxStart.Some? && s.sa.Some? ==>
          FailedBy(world.cx, s.cxStart, s.sa.value.startedAt) || s.sa.value.startedAt >= s.cxStart.value + delay)
    && (s.giveUpAt.Some? <==> s.failureSeen.Some?)
    && (s.giveUpAt.Some? ==>
          s.cx.Some? && s.sa.Some? && s.failureSeen.value <= s.now &&
          s.failureSeen.value + Patience(delay) <= s.giveUpAt.value &&
          FailedBy(world.sa, Some(s.sa.value.startedAt), s.failureSeen.value))
  }

  /** After `n` rounds both budgets are on schedule; `cx` is the connectorx attempt started. */
  ghost predicate OnSchedule<T>(s: State<T>, n: nat, cx: Option<Attempt<T>>, world: World<T>, delay: Ms) {
    && (world.sa.Settles? ==> n + Budget(s, delay, world.sa.after) <= RoundLimit(delay, world.sa.after))
    && (cx.Some? && WillAnswer(world) ==>
          s.cx == cx && cx.value.plan == world.cx && n + AnswerBudget(s) <= Rounds(world.cx.after))
    && (s.cx.Some? ==> cx.Some?)
    && (world.sa.Settles? && (cx.Some? ==> WillFail(world)) ==>
          n + FailBudget(s, world.sa.after) <= FallbackLimit(world, cx.None?))
  }

  predicate WillFail<T>(world: World<T>) {
    world.cx.Settles? && world.cx.outcome.Error?
  }

  /** The rounds of a read in which connectorx is skipped or fails. */
  function FallbackLimit<T>(world: World<T>, flagged: bool): nat
    requires world.sa.Settles? && (flagged || WillFail(world))
  {
    Rounds(world.sa.after) + if flagged then 0 else Rounds(world.cx.after) + 1
  }

  ghost predicate InLoop<T>(s: State<T>, n: nat, cx: Option<Attempt<T>>, world: World<T>, delay: Ms) {
    Valid(s, world, delay) && OnSchedule(s, n, cx, world, delay) && OnTime(s, world, delay)
  }

  lemma LoopStarts<T>(s: State<T>, world: World<T>, delay: Ms)
    requires s.cx.Some? != s.sa.Some? && s.giveUpAt.None? && world.start <= s.now && s.hedgeAt == s.now + delay
    requires s.cx.Some? ==> s.cx.value == Attempt(world.cx, world.start)
    requires s.sa.Some? ==> s.sa.value == Attempt(world.sa, world.start)
    ensures OnSchedule(s, 0, s.cx, world, delay)
  {
    if world.sa.Settles? { RoundsShrink(world.sa.after, world.start + world.sa.after - s.now); }
    if world.cx.Settles? { RoundsShrink(world.cx.after, world.start + world.cx.after - s.now); }
  }

  lemma LoopGoesOn<T>(s: State<T>, t: State<T>, n: nat, cx: Option<Attempt<T>>, world: World<T>, delay: Ms)
    requires OnSchedule(s, n, cx, world, delay)
    requires Valid(s, world, delay) && RoundChange(s, t, world, delay)
    ensures OnSchedule(t.(now := Wake(t.cx, t.sa, t.now)), n + 1, cx, world, delay)
  {
    if world.sa.Settles? { RoundUsesBudget(s, t, world, delay, world.sa.after); }
    if cx.Some? && WillAnswer(world) { RoundNearsAnswer(s, t, world, delay); }
    if world.sa.Settles? && (cx.Some? ==> WillFail(world)) { RoundNearsFallback(s, t, world, delay); }
  }

  function TraceOf<T>(s: State<T>, polls: nat): Trace {
    Trace(s.cxStart, Started(s.sa), s.looked, s.failureSeen, s.now, polls)
  }

  /** The promises about an answer, in terms of what the attempts really did. */
  ghost predicate Honest<T>(r: Answer<T>, t: Trace, world: World<T>, delay: Ms) {
    // SQLAlchemy next to connectorx: only because that failed, or after the hedge delay
    && (t.cxStart.Some? && t.saStart.Some? ==>
          FailedBy(world.cx, t.cxStart, t.saStart.value) || t.saStart.value >= t.cxStart.value + delay)
    && match r
       case Returned(ConnectorX, frame) => SettledBy(world.cx, t.cxStart, t.end) && world.cx.outcome == Frame(frame)
       // a connectorx frame that is there is never passed over
       case Returned(SqlAlchemy, frame) =>
         && SettledBy(world.sa, t.saStart, t.end) && world.sa.outcome == Frame(frame)
         && (SettledBy(world.cx, t.cxStart, t.looked) ==> world.cx.outcome.Error?)
       case BothFailed =>
         FailedBy(world.sa, t.saStart, t.end) && (t.cxStart.Some? ==> FailedBy(world.cx, t.cxStart, t.looked))
       case GaveUp =>
         && t.cxStart.Some? && !SettledBy(world.cx, t.cxStart, t.looked)
         && t.failureSeen.Some? && FailedBy(world.sa, t.saStart, t.failureSeen.value)
         && t.end >= t.failureSeen.value + delay && t.end >= t.failureSeen.value + 30_000
       case Cancelled => true
       case StillWaiting => true
  }

  /** SQLAlchemy hangs, and connectorx is skipped or never gives a frame: without a
      cancellation the loop goes on for good. */
  predicate NeverEnds<T>(world: World<T>, flagged: bool) {
    world.sa.Hangs? && (flagged || !WillAnswer(world))
  }

  lemma NothingEndsIt<T>(r: Answer<T>, t: Trace, world: World<T>, delay: Ms)
    requires Honest(r, t, world, delay) && !r.Cancelled? && NeverEnds(world, t.cxStart.None?)
    ensures r.StillWaiting?
  {
  }

  /** SQLAlchemy won while connectorx was undecided. */
  ghost predicate WonHedge<T>(r: Answer<T>, t: Trace, world: World<T>) {
    r.Returned? && r.source.SqlAlchemy? && t.cxStart.Some? && !SettledBy(world.cx, t.cxStart, t.looked)
  }

  class Reader<T> {
    /** Endpoints on which a hedged SQLAlchemy read has won, for this process. */
    var sqlalchemyFirst: set<string>

    constructor ()
      ensures sqlalchemyFirst == {}
    {
      sqlalchemyFirst := {};
    }

    /** Lines 136-143 of db_reader.py: a frame of connectorx is the answer; its failure starts
        SQLAlchemy, unless that is running. */
    method LookAtConnectorX(delay: Ms, world: World<T>, s: State<T>) returns (frame: Option<T>, t: State<T>)
      requires Valid(s, world, delay)
      ensures t == s.(cx := t.cx, sa := t.sa, looked := t.looked, now := t.now) && s.now <= t.looked <= t.now
      ensures frame.Some? <==> s.cx.Some? && SettledBy(world.cx, s.cxStart, t.looked) && world.cx.outcome.Frame?
      ensures frame.Some? ==> world.cx.outcome.frame == frame.value && t.sa == s.sa
      ensures s.cx.Some? && FailedBy(world.cx, s.cxStart, t.looked) ==>
                t.cx.None? && t.sa == if s.sa.Some? then s.sa else Some(Attempt(world.sa, t.now))
      ensures !(s.cx.Some? && FailedBy(world.cx, s.cxStart, t.looked)) ==> t.cx == s.cx && t.sa == s.sa
      ensures NoLag(world) ==> t.now == s.now
    {
      var cx, sa, now := s.cx, s.sa, s.now + world.lag(s.lags);
      var looked := now;
      if cx.Some? && cx.value.Done(now) {
        if cx.value.plan.outcome.Frame? {
          return Some(cx.value.plan.outcome.frame), s.(looked := looked, now := now);
        }
        cx := None;
        if sa.None? {
          now := now + world.lag(s.lags + 1);
          sa := Some(Attempt(world.sa, now));
        }
      }
      return None, s.(cx := cx, sa := sa, looked := looked, now := now);
    }

    /** Lines 136-162 of db_reader.py: one round of the loop, up to the wait. */
    method Round(key: string, delay: Ms, world: World<T>, s: State<T>, ghost n: nat) returns (r: Answer<T>, t: State<T>)
      requires Valid(s, world, delay)
      modifies this
      ensures t.cxStart == s.cxStart && t.hedgeAt == s.hedgeAt && (s.sa.Some? ==> t.sa == s.sa)
      ensures r.StillWaiting? ==> Valid(t, world, delay)
      // connectorx's failure starts the fallback, and so does the deadline
      ensures r.StillWaiting? ==> RoundChange(s, t, world, delay)
      ensures NoLag(world) ==> Instant(s, t, r.StillWaiting?)
      ensures Honest(r, TraceOf(t, n), world, delay) && !r.Cancelled?
      ensures sqlalchemyFirst ==
                old(sqlalchemyFirst) + if WonHedge(r, TraceOf(t, n), world) then {key} else {}
    {
      var frame, l := LookAtConnectorX(delay, world, s);
      if frame.Some? { return Returned(ConnectorX, frame.value), l; }
      var cx, sa, now, looked, lags := l.cx, l.sa, l.now, l.looked, s.lags;
      var giveUpAt, failureSeen := s.giveUpAt, s.failureSeen;

      now := now + world.lag(lags + 2);
      if sa.Some? && sa.value.Done(now) {
        if sa.value.plan.outcome.Frame? {
          if cx.Some? {
            sqlalchemyFirst := sqlalchemyFirst + {key};
          }
          return Returned(SqlAlchemy, sa.value.plan.outcome.frame), s.(sa := sa, looked := looked, now := now);
        }
        if cx.None? {
          return BothFailed, s.(sa := sa, looked := looked, now := now);
        }
        if giveUpAt.None? {
          failureSeen := Some(now);
          now := now + world.lag(lags + 3);
          giveUpAt := Some(now + Max(delay, MIN_PATIENCE));
        } else {
          now := now + world.lag(lags + 3);
          if now >= giveUpAt.value {
            return GaveUp, s.(sa := sa, looked := looked, now := now);
          }
        }
      }

      if sa.None? {
        now := now + world.lag(lags + 4);
        if now >= s.hedgeAt {
          sa := Some(Attempt(world.sa, now));
        }
      }
      now := now + world.lag(lags + 5);
      return StillWaiting, State(cx, sa, s.hedgeAt, giveUpAt, s.cxStart, failureSeen, looked, now, lags + 6);
    }

    /** A round that does not answer ends with a wait for the first attempt that has not
        settled. */
    method RoundAndWait(key: string, delay: Ms, world: World<T>, s: State<T>, ghost n: nat,
        ghost cx: Option<Attempt<T>>)
      returns (r: Answer<T>, t: State<T>)
      requires InLoop(s, n, cx, world, delay)
      modifies this
      ensures t.cxStart == s.cxStart && (s.sa.Some? ==> t.sa == s.sa) && OnTime(t, world, delay)
      ensures r.StillWaiting? ==> InLoop(t, n + 1, cx, world, delay)
      ensures NeverEnds(world, s.cxStart.None?) ==> r.StillWaiting?
      ensures Honest(r, TraceOf(t, n), world, delay) && !r.Cancelled?
      ensures sqlalchemyFirst == old(sqlalchemyFirst) + if WonHedge(r, TraceOf(t, n), world) then {key} else {}
    {
      r, t := Round(key, delay, world, s, n);
      InstantIsPunctual(s, t, r.StillWaiting?, world, delay);
      if NeverEnds(world, s.cxStart.None?) { NothingEndsIt(r, TraceOf(t, n), world, delay); }
      if r.StillWaiting? {
        LoopGoesOn(s, t, n, cx, world, delay);
        t := t.(now := Wake(t.cx, t.sa, t.now));
      }
    }

    /** Lines 114-120 of db_reader.py: connectorx starts unless the endpoint is flagged, and
        SQLAlchemy if it is. */
    method Begin(key: string, delay: Ms, world: World<T>) returns (s: State<T>)
      ensures s.cxStart == Started(s.cx) && (s.cx.Some? != s.sa.Some?)
      ensures s.cxStart == if key in sqlalchemyFirst then None else Some(world.start)
      ensures s.sa == if key in sqlalchemyFirst then Some(Attempt(world.sa, world.start)) else None
      ensures InLoop(s, 0, s.cx, world, delay)
    {
      var cx: Option<Attempt<T>>, sa: Option<Attempt<T>> := None, None;
      var cxStart: Option<Ms> := None;
      if key !in sqlalchemyFirst {
        cx := Some(Attempt(world.cx, world.start));
        cxStart := Some(world.start);
      } else {
        sa := Some(Attempt(world.sa, world.start));
      }
      var now := world.start + world.lag(0);
      s := State(cx, sa, now + delay, None, cxStart, None, now, now, 1);
      LoopStarts(s, world, delay);
    }

    /** `read_sql_with_fallback`, run for at most `polls` rounds of its loop. */
    method Read(key: string, delay: Ms, world: World<T>, polls: nat) returns (r: Answer<T>, t: Trace)
      modifies this
      // connectorx is started at once unless the endpoint is flagged; a flagged one starts SQLAlchemy
      ensures t.cxStart == if key in old(sqlalchemyFirst) then None else Some(world.start)
      ensures key in old(sqlalchemyFirst) ==> t.saStart == Some(world.start)
      ensures Honest(r, t, world, delay)
      // the endpoint is flagged exactly when SQLAlchemy beat an undecided connectorx
      ensures sqlalchemyFirst == old(sqlalchemyFirst) + if WonHedge(r, t, world) then {key} else {}
      // cancellation ends the round in which it is noticed, and nothing else cancels
      ensures r.Cancelled? <==> t.polls < polls && world.cancels(t.polls)
      ensures forall k :: 0 <= k < t.polls ==> !world.cancels(k)
      // termination
      ensures t.polls <= polls && (r.StillWaiting? ==> t.polls == polls)
      ensures world.sa.Settles? && polls >= RoundLimit(delay, world.sa.after) ==> !r.StillWaiting?
      ensures key !in old(sqlalchemyFirst) && WillAnswer(world) && polls > Rounds(world.cx.after) ==> !r.StillWaiting?
      // connectorx's failure is answered for without waiting for the hedge deadline
      ensures world.sa.Settles? && key in old(sqlalchemyFirst) && polls > Rounds(world.sa.after) ==> !r.StillWaiting?
      ensures world.sa.Settles? && WillFail(world) && polls > Rounds(world.cx.after) + Rounds(world.sa.after) + 1 ==>
                !r.StillWaiting?
      // SQLAlchemy starts when connectorx fails or the deadline comes, whichever is first
      ensures NoLag(world) && key !in old(sqlalchemyFirst) ==> Punctual(t.saStart, t.end, world, delay)
      // and nothing else ends it
      ensures NeverEnds(world, key in old(sqlalchemyFirst)) && (forall k :: 0 <= k < polls ==> !world.cancels(k)) ==>
                r.StillWaiting?
    {
      var s := Begin(key, delay, world);
      ghost var cx, sa := s.cx, s.sa;
      var n := 0;
      while n < polls
        invariant 0 <= n <= polls
        invariant InLoop(s, n, cx, world, delay) && s.cxStart == Started(cx) && (sa.Some? ==> s.sa == sa)
        invariant sqlalchemyFirst == old(sqlalchemyFirst)
        invariant forall k :: 0 <= k < n ==> !world.cancels(k)
      {
        if world.cancels(n) {
          return Cancelled, TraceOf(s, n);
        }
        r, s := RoundAndWait(key, delay, world, s, n, cx);
        if !r.StillWaiting? {
          return r, TraceOf(s, n);
        }
        n := n + 1;
      }
      return StillWaiting, TraceOf(s, n);
    }
  }
}
