// Account lockout (src/services/account_lockout.rs, src/models/account_lockout.rs) for one
// identifier: what each operation does to its row, and what it answers. Time is an integer.
module Lockout {
  import opened Base

  datatype Config = Config(maxAttempts: nat, lockFor: nat, resetAfter: nat)

  datatype Status = Normal | Locked | TemporaryLocked

  datatype Row = Row(attempts: nat, status: Status, lockedUntil: Option<int>, lastAttempt: int)

  // `seen`, `aged` and `at` are the clock readings of one check.
  datatype Event =
    | Check(seen: int, aged: int, at: int)
    | Attempt(seen: int, at: int)
    | Reset(now: int)
    | Unlock(now: int)
    | Cleanup(now: int)

  datatype Answer =
    | Checked(locked: bool, remaining: nat)
    | Counted(attempts: nat, justLocked: bool)
    | Unlocked(done: bool)
    | Quiet

  predicate IsLocked(row: Row, now: int) {
    !row.status.Normal? && (row.lockedUntil.None? || now < row.lockedUntil.value)
  }

  predicate LockExpired(row: Row, now: int) {
    row.lockedUntil.Some? && now >= row.lockedUntil.value
  }

  predicate ShouldReset(config: Config, row: Row, now: int) {
    row.lastAttempt < now - config.resetAfter
  }

  function Cleared(row: Row): (r: Row) {
    row.(status := Normal, attempts := 0, lockedUntil := None)
  }

  function Remaining(config: Config, attempts: nat): (r: nat) {
    if attempts <= config.maxAttempts then config.maxAttempts - attempts else 0
  }

  // An expired lock is lifted, an old count forgotten; then the row decides.
  function AfterCheck(config: Config, row: Option<Row>, seen: int, aged: int, at: int): (r: (Option<Row>, Answer)) {
    if row.None? then (None, Checked(false, config.maxAttempts))
    else if LockExpired(row.value, seen) && !row.value.status.Normal? then
      (Some(Cleared(row.value)), Checked(false, config.maxAttempts))
    else
      var r := if ShouldReset(config, row.value, aged) && row.value.status.Normal? then row.value.(attempts := 0)
               else row.value;
      (Some(r), if IsLocked(r, at) then Checked(true, 0) else Checked(false, Remaining(config, r.attempts)))
  }

  // The three statements of an increment.
  function Bumped(row: Option<Row>, now: int): (r: Row) {
    if row.None? then Row(1, Normal, None, now)
    else row.value.(attempts := row.value.attempts + 1, lastAttempt := now)
  }

  predicate LocksNow(config: Config, row: Row) {
    row.attempts >= config.maxAttempts && !row.status.Locked?
  }

  function AfterLock(config: Config, row: Row, now: int): (r: Row) {
    if LocksNow(config, row) then row.(status := Locked, lockedUntil := Some(now + config.lockFor)) else row
  }

  function AfterAttempt(config: Config, row: Option<Row>, seen: int, at: int): (r: (Option<Row>, Answer)) {
    var bumped := Bumped(row, seen);
    (Some(AfterLock(config, bumped, at)), Counted(bumped.attempts, LocksNow(config, bumped)))
  }

  function AfterReset(row: Option<Row>): (r: Option<Row>) {
    if row.Some? then Some(Cleared(row.value)) else None
  }

  function AfterUnlock(row: Option<Row>, now: int): (r: (Option<Row>, Answer)) {
    if row.Some? && IsLocked(row.value, now) then (Some(Cleared(row.value)), Unlocked(true))
    else (row, Unlocked(false))
  }

  // What cleanup deletes: locks that are over, and counts older than the reset window.
  predicate Swept(config: Config, row: Row, now: int) {
    if row.status.Normal? then row.lastAttempt < now - config.resetAfter
    else row.lockedUntil.Some? && row.lockedUntil.value < now
  }

  datatype Trace = Trace(row: Option<Row>, answers: seq<Answer>)

  function Answers(answers: seq<Answer>, a: Answer): (r: seq<Answer>) {
    answers + [a]
  }

  function Step(config: Config, t: Trace, e: Event): (r: Trace) {
    match e
    case Check(seen, aged, at) =>
      var (row, answer) := AfterCheck(config, t.row, seen, aged, at);
      Trace(row, Answers(t.answers, answer))
    case Attempt(seen, at) =>
      var (row, answer) := AfterAttempt(config, t.row, seen, at);
      Trace(row, Answers(t.answers, answer))
    case Reset(_) => Trace(AfterReset(t.row), Answers(t.answers, Quiet))
    case Unlock(now) =>
      var (row, answer) := AfterUnlock(t.row, now);
      Trace(row, Answers(t.answers, answer))
    case Cleanup(now) =>
      t.(row := if t.row.Some? && Swept(config, t.row.value, now) then None else t.row)
  }

  function Run(config: Config, events: seq<Event>): (r: Trace) {
    if events == [] then Trace(None, [])
    else Step(config, Run(config, events[..|events| - 1]), events[|events| - 1])
  }

  function Began(e: Event): (r: int) {
    match e
    case Check(seen, _, _) => seen
    case Attempt(seen, _) => seen
    case Reset(now) => now
    case Unlock(now) => now
    case Cleanup(now) => now
  }

  function Ended(e: Event): (r: int) {
    match e
    case Check(_, _, at) => at
    case Attempt(_, at) => at
    case Reset(now) => now
    case Unlock(now) => now
    case Cleanup(now) => now
  }

  predicate Clocked(events: seq<Event>) {
    && (forall i | 0 <= i < |events| ::
          (events[i].Check? ==> events[i].seen <= events[i].aged <= events[i].at)
          && (events[i].Attempt? ==> events[i].seen <= events[i].at))
    && forall i | 0 <= i < |events| - 1 :: Ended(events[i]) <= Began(events[i + 1])
  }

  // ---------------------------------------------------------------------------
  // Cleanup.

  function WithoutCleanup(events: seq<Event>): (r: seq<Event>) {
    if events == [] then []
    else
      var rest := WithoutCleanup(events[..|events| - 1]);
      if events[|events| - 1].Cleanup? then rest else rest + [events[|events| - 1]]
  }

  // A cleanup has run and no check since.
  predicate Dirty(events: seq<Event>) {
    events != []
    && (events[|events| - 1].Cleanup? || (!events[|events| - 1].Check? && Dirty(events[..|events| - 1])))
  }

  // Each attempt is separated from every earlier cleanup by a check.
  predicate Guarded(events: seq<Event>) {
    forall i | 0 <= i < |events| :: events[i].Attempt? ==> !Dirty(events[..i])
  }

  // A row that means the same as no row; `over` marks what the next check will clear.
  ghost predicate Inert(row: Row) {
    row.status.Normal? && row.attempts == 0
  }

  ghost predicate WellShaped(row: Row) {
    (row.status.Normal? <==> row.lockedUntil.None?) && (row.status.Normal? || row.attempts > 0)
  }

  ghost predicate Related(config: Config, kept: Option<Row>, swept: Option<Row>, dirty: bool, clock: int) {
    && (kept.Some? ==> WellShaped(kept.value))
    && if swept.Some? then kept == swept
       else kept.Some? ==> Inert(kept.value) || (dirty && Swept(config, kept.value, clock))
  }

  lemma RelatedStep(config: Config, kept: Trace, swept: Trace, dirty: bool, clock: int, e: Event)
    requires Related(config, kept.row, swept.row, dirty, clock) && kept.answers == swept.answers
    requires clock <= Began(e) <= Ended(e) && (e.Check? ==> e.seen <= e.aged <= e.at)
    requires !e.Cleanup? && (e.Attempt? ==> !dirty)
    ensures var kept', swept' := Step(config, kept, e), Step(config, swept, e);
      && kept'.answers == swept'.answers
      && Related(config, kept'.row, swept'.row, dirty && !e.Check?, Ended(e))
  {
  }

  lemma RelatedCleanup(config: Config, kept: Trace, swept: Trace, dirty: bool, clock: int, now: int)
    requires Related(config, kept.row, swept.row, dirty, clock) && kept.answers == swept.answers && clock <= now
    ensures var swept' := Step(config, swept, Cleanup(now));
      kept.answers == swept'.answers && Related(config, kept.row, swept'.row, true, now)
  {
  }

  lemma {:induction false} RunsRelated(config: Config, events: seq<Event>)
    requires Clocked(events) && Guarded(events) && events != []
    ensures var kept, swept := Run(config, WithoutCleanup(events)), Run(config, events);
      && kept.answers == swept.answers
      && Related(config, kept.row, swept.row, Dirty(events), Ended(events[|events| - 1]))
  {
    hide Step, Related;
    var before, last := events[..|events| - 1], events[|events| - 1];
    var clock := if before == [] then Began(last) else Ended(before[|before| - 1]);
    if before == [] {
      NothingRelated(config, clock);
    } else {
      FrontIsGood(events);
      RunsRelated(config, before);
    }
    LastStep(config, events);
    var kept, swept := Run(config, WithoutCleanup(before)), Run(config, before);
    if last.Cleanup? {
      RelatedCleanup(config, kept, swept, Dirty(before), clock, last.now);
    } else {
      RelatedStep(config, kept, swept, Dirty(before), clock, last);
    }
  }

  lemma NothingRelated(config: Config, clock: int)
    ensures Related(config, None, None, false, clock)
  {
  }

  lemma FrontIsGood(events: seq<Event>)
    requires Clocked(events) && Guarded(events) && |events| > 1
    ensures var before := events[..|events| - 1];
      Clocked(before) && Guarded(before) && Ended(before[|before| - 1]) <= Began(events[|events| - 1])
  {
    var before := events[..|events| - 1];
    forall i | 0 <= i < |before| ensures before[i].Attempt? ==> !Dirty(before[..i]) {
      assert before[..i] == events[..i] && before[i] == events[i];
    }
    var n := |events| - 2;
    assert Ended(events[n]) <= Began(events[n + 1]);
  }

  lemma LastStep(config: Config, events: seq<Event>)
    requires events != []
    ensures var before, last := events[..|events| - 1], events[|events| - 1];
      && Run(config, events) == Step(config, Run(config, before), last)
      && Run(config, WithoutCleanup(events))
           == if last.Cleanup? then Run(config, WithoutCleanup(before))
              else Step(config, Run(config, WithoutCleanup(before)), last)
  {
    hide Step;
    var before, last := events[..|events| - 1], events[|events| - 1];
    if !last.Cleanup? {
      var rest := WithoutCleanup(before);
      assert (rest + [last])[..|rest|] == rest;
    }
  }

  // Running the cleanup at any points changes no answer of a guarded run: no check, no count,
  // no unlock.
  lemma CleanupIsInvisible(config: Config, events: seq<Event>)
    requires Clocked(events) && Guarded(events)
    ensures Run(config, events).answers == Run(config, WithoutCleanup(events)).answers
  {
    if events != [] {
      RunsRelated(config, events);
    }
  }

  // Exactly when a cleanup that comes between a check and its attempt can be told: what the
  // attempt leaves and what it answers are the same if and only if the row was not swept or
  // counted for nothing.
  lemma CleanupBeforeAttempt(config: Config, row: Row, now: int, seen: int, at: int)
    requires WellShaped(row) && now <= seen <= at
    ensures var swept := if Swept(config, row, now) then None else Some(row);
      var a, b := AfterAttempt(config, swept, seen, at), AfterAttempt(config, Some(row), seen, at);
      (a == b) == (!Swept(config, row, now) || Inert(row)) && (a.1 == b.1) == (!Swept(config, row, now) || Inert(row))
  {
  }

  // The same at the end of any run: the last check has been made, a cleanup comes, then the
  // attempt. Its answer is as if there had been no cleanup if and only if the row that the
  // check saw is kept or counts for nothing.
  lemma CleanupBetweenCheckAndAttempt(config: Config, events: seq<Event>, now: int, seen: int, at: int)
    requires Clocked(events) && Guarded(events) && events != [] && events[|events| - 1].Check?
    requires Ended(events[|events| - 1]) <= now <= seen <= at
    ensures var swept, kept := events + [Cleanup(now)] + [Attempt(seen, at)], events + [Attempt(seen, at)];
      var row := Run(config, events).row;
      (Run(config, swept).answers == Run(config, kept).answers)
        == (row.None? || !Swept(config, row.value, now) || Inert(row.value))
  {
    hide AfterAttempt, Swept, Related, Clocked, Guarded, Dirty;
    RunsRelated(config, events);
    RunLast(config, events, Cleanup(now));
    RunLast(config, events + [Cleanup(now)], Attempt(seen, at));
    RunLast(config, events, Attempt(seen, at));
    var t := Run(config, events);
    KeptIsWellShaped(config, events);
    if t.row.Some? {
      CleanupBeforeAttempt(config, t.row.value, now, seen, at);
      var swept := if Swept(config, t.row.value, now) then None else t.row;
      AppendTells(t.answers, AfterAttempt(config, swept, seen, at).1, AfterAttempt(config, t.row, seen, at).1);
    }
  }

  lemma RunLast(config: Config, events: seq<Event>, e: Event)
    ensures Run(config, events + [e]) == Step(config, Run(config, events), e)
  {
    hide Step;
    assert (events + [e])[..|events|] == events;
  }

  lemma KeptIsWellShaped(config: Config, events: seq<Event>)
    requires Clocked(events) && Guarded(events) && events != []
    ensures var row := Run(config, events).row; row.Some? ==> WellShaped(row.value)
  {
    hide Run;
    RunsRelated(config, events);
  }

  lemma AppendTells(answers: seq<Answer>, a: Answer, b: Answer)
    ensures (answers + [a] == answers + [b]) == (a == b)
  {
    assert (answers + [a])[|answers|] == a && (answers + [b])[|answers|] == b;
  }

  // It does happen, whatever the maximum: all attempts but one are made, a check is passed
  // in the last instant in which they count, a cleanup forgets them, and the attempt that
  // would have locked the account counts as the first.
  function Attempts(n: nat): (events: seq<Event>) {
    seq(n, _ => Attempt(0, 0))
  }

  lemma {:induction false} AttemptsCount(config: Config, n: nat)
    requires 0 < n < config.maxAttempts
    ensures Run(config, Attempts(n)).row == Some(Row(n, Normal, None, 0))
    ensures WithoutCleanup(Attempts(n)) == Attempts(n) && !Dirty(Attempts(n)) && Guarded(Attempts(n))
  {
    hide Step, WithoutCleanup, Dirty, Guarded;
    if n == 1 {
      assert Attempts(1) == [] + [Attempt(0, 0)];
      NothingAtFirst(config);
    } else {
      AttemptsCount(config, n - 1);
      assert Attempts(n) == Attempts(n - 1) + [Attempt(0, 0)];
    }
    var front := Attempts(n - 1);
    RunLast(config, front, Attempt(0, 0));
    OneMoreAttempt(config, front);
    AttemptStep(config, n - 1);
  }

  lemma NothingAtFirst(config: Config)
    ensures Run(config, []).row == None && WithoutCleanup([]) == [] && !Dirty([]) && Guarded([])
  {
  }

  lemma AttemptStep(config: Config, n: nat)
    requires n + 1 < config.maxAttempts
    ensures AfterAttempt(config, if n == 0 then None else Some(Row(n, Normal, None, 0)), 0, 0).0
      == Some(Row(n + 1, Normal, None, 0))
    ensures forall t: Trace :: Step(config, t, Attempt(0, 0)).row == AfterAttempt(config, t.row, 0, 0).0
  {
  }

  lemma WithoutCleanupLast(events: seq<Event>, e: Event)
    ensures WithoutCleanup(events + [e]) == WithoutCleanup(events) + if e.Cleanup? then [] else [e]
    ensures Dirty(events + [e]) <==> e.Cleanup? || (!e.Check? && Dirty(events))
  {
    assert (events + [e])[..|events|] == events;
  }

  lemma GuardedLast(events: seq<Event>, e: Event)
    ensures Guarded(events + [e]) <==> Guarded(events) && (e.Attempt? ==> !Dirty(events))
  {
    hide Dirty;
    var more := events + [e];
    assert more[..|events|] == events;
    assert forall i | 0 <= i < |events| :: more[i] == events[i] && more[..i] == events[..i];
    if Guarded(more) {
      assert more[|events|] == e;
      forall i | 0 <= i < |events| && events[i].Attempt? ensures !Dirty(events[..i]) {
        assert more[i].Attempt? && more[..i] == events[..i];
      }
    }
  }

  lemma OneMoreAttempt(config: Config, front: seq<Event>)
    requires !Dirty(front) && Guarded(front) && WithoutCleanup(front) == front
    ensures var events := front + [Attempt(0, 0)];
      !Dirty(events) && Guarded(events) && WithoutCleanup(events) == events
  {
    hide WithoutCleanup, Dirty, Guarded;
    WithoutCleanupLast(front, Attempt(0, 0));
    GuardedLast(front, Attempt(0, 0));
  }

  lemma UnguardedCleanupIsVisible(config: Config)
    requires config.maxAttempts >= 2
    ensures var late := config.resetAfter;
      var begun := Attempts(config.maxAttempts - 1) + [Check(late, late, late)];
      var last := [Attempt(late + 1, late + 1)];
      var swept, kept := begun + [Cleanup(late + 1)] + last, begun + last;
      && Clocked(swept) && Guarded(begun) && !Guarded(swept) && WithoutCleanup(swept) == kept
      && Run(config, swept).answers == Run(config, begun).answers + [Counted(1, false)]
      && Run(config, kept).answers == Run(config, begun).answers + [Counted(config.maxAttempts, true)]
  {
    hide Run, Step, WithoutCleanup, Guarded, Dirty, Clocked, Attempts;
    var n, late := config.maxAttempts - 1, config.resetAfter;
    var attempts := Attempts(n);
    var check, cleanup, last := Check(late, late, late), Cleanup(late + 1), Attempt(late + 1, late + 1);
    var begun := attempts + [check];
    AttemptsCount(config, n);
    AttemptsClocked(n, late);
    RunLast(config, attempts, check);
    RunLast(config, begun, cleanup);
    RunLast(config, begun + [cleanup], last);
    RunLast(config, begun, last);
    CheckedLate(config, Run(config, attempts));
    LastAttempt(config, Run(config, begun));
    ChecksStay(attempts, check, cleanup, last);
  }

  lemma AttemptsClocked(n: nat, late: nat)
    ensures Clocked(Attempts(n) + [Check(late, late, late)] + [Cleanup(late + 1)] + [Attempt(late + 1, late + 1)])
  {
  }

  lemma CheckedLate(config: Config, t: Trace)
    requires config.maxAttempts >= 2 && t.row == Some(Row(config.maxAttempts - 1, Normal, None, 0))
    ensures var late := config.resetAfter;
      Step(config, t, Check(late, late, late)) == Trace(t.row, t.answers + [Checked(false, 1)])
  {
  }

  lemma LastAttempt(config: Config, t: Trace)
    requires config.maxAttempts >= 2 && t.row == Some(Row(config.maxAttempts - 1, Normal, None, 0))
    ensures var last := Attempt(config.resetAfter + 1, config.resetAfter + 1);
      var swept := Step(config, t, Cleanup(config.resetAfter + 1));
      && Step(config, swept, last).answers == t.answers + [Counted(1, false)]
      && Step(config, t, last).answers == t.answers + [Counted(config.maxAttempts, true)]
  {
  }

  lemma ChecksStay(attempts: seq<Event>, check: Event, cleanup: Event, last: Event)
    requires WithoutCleanup(attempts) == attempts && Guarded(attempts)
    requires check.Check? && cleanup.Cleanup? && last.Attempt?
    ensures WithoutCleanup(attempts + [check] + [cleanup] + [last]) == attempts + [check] + [last]
    ensures Guarded(attempts + [check]) && !Guarded(attempts + [check] + [cleanup] + [last])
  {
    hide WithoutCleanup, Dirty, Guarded;
    WithoutCleanupLast(attempts, check);
    WithoutCleanupLast(attempts + [check], cleanup);
    WithoutCleanupLast(attempts + [check] + [cleanup], last);
    GuardedLast(attempts, check);
    GuardedLast(attempts + [check] + [cleanup], last);
  }
}
