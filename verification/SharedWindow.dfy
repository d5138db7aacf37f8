// The counter shared by all replicas (shared_decision and cleanup_shared_records in
// src/services/rate_limiter.rs): one row per (client, endpoint), four statements that are
// carried out as one transaction, here one step on the clock of the database. The index of
// the window is read in the process before that, and is the same in every retry, so a
// request brings an index of its own.
module SharedWindow {
  import opened Base
  import opened RateRules

  datatype Row = Row(hits: nat, window: nat, blockedUntil: Option<nat>, updatedAt: nat)

  function AtLeast(n: nat, low: nat): (r: nat) {
    if n < low then low else n
  }

  // Whole seconds, and at least one.
  function WindowSeconds(rule: Rule): (n: nat)
    ensures n >= 1
  {
    AtLeast(rule.window / SECOND, 1)
  }

  function BlockTime(rule: Rule): (n: nat)
    ensures n >= SECOND
  {
    AtLeast(rule.block / SECOND, 1) * SECOND
  }

  // The seconds that the durations of the rule have completed.
  lemma SecondsAre(rule: Rule)
    ensures var n := WindowSeconds(rule);
      n * 1_000_000_000 <= rule.window < (n + 1) * 1_000_000_000 || (n == 1 && rule.window < 1_000_000_000)
    ensures var n := BlockTime(rule);
      && n % 1_000_000_000 == 0
      && (n <= rule.block < n + 1_000_000_000 || (n == 1_000_000_000 && rule.block < n))
  {
  }

  // What a process reads as the index of the window. The clock counts from the epoch.
  function WindowIndex(rule: Rule, now: nat): (r: nat) {
    now / SECOND / WindowSeconds(rule)
  }

  // The windows follow each other without a gap, all of one length, the first from the epoch.
  lemma IndexIsOfWindow(rule: Rule, now: nat, index: nat)
    ensures WindowIndex(rule, now) == index
      <==> index * WindowSeconds(rule) * SECOND <= now < (index + 1) * WindowSeconds(rule) * SECOND
  {
    var length, seconds := WindowSeconds(rule), now / SECOND;
    hide WindowSeconds;
    QuotientIs(seconds, length, index);
    assert index * length * SECOND <= now <==> index * length <= seconds;
    assert now < (index + 1) * length * SECOND <==> seconds < (index + 1) * length;
  }

  lemma QuotientIs(a: nat, n: nat, q: nat)
    requires n > 0
    ensures a / n == q <==> q * n <= a < (q + 1) * n
  {
    ProductGrows(a / n, q, n);
    ProductGrows(q, a / n, n);
    assert (q + 1) * n == q * n + n;
    assert a / n * n <= a < a / n * n + n;
  }

  predicate Expired(row: Row, now: nat) {
    row.blockedUntil.None? || row.blockedUntil.value < now
  }

  // Statements 1 and 2: another window starts again from nothing; one more hit.
  function Counted(row: Option<Row>, now: nat, index: nat): (r: Row) {
    if row.None? then Row(1, index, None, now)
    else if row.value.window != index then Row(1, index, row.value.blockedUntil, now)
    else row.value.(hits := row.value.hits + 1, updatedAt := now)
  }

  // Statement 3: block, if over the limit and not blocked. Statement 4: read the block back.
  function Decided(rule: Rule, row: Row, now: nat): (r: (Row, Decision)) {
    if row.hits > rule.maxRequests && Expired(row, now) then
      (row.(blockedUntil := Some(now + BlockTime(rule))), JustBlocked)
    else (row, if row.blockedUntil.Some? && row.blockedUntil.value > now then StillBlocked else Allowed)
  }

  datatype Event = Request(now: nat, index: nat) | Sweep(now: nat)

  // An answer with the hit it was given for.
  datatype Answer = Answer(now: nat, window: nat, hits: nat, decision: Decision)

  datatype Trace = Trace(row: Option<Row>, answers: seq<Answer>)

  function Step(rule: Rule, t: Trace, e: Event): (r: Trace) {
    match e
    case Request(now, index) =>
      var counted := Counted(t.row, now, index);
      var (row, decision) := Decided(rule, counted, now);
      Trace(Some(row), t.answers + [Answer(now, index, counted.hits, decision)])
    case Sweep(now) =>
      if t.row.Some? && Expired(t.row.value, now) && t.row.value.updatedAt + HOUR < now then t.(row := None) else t
  }

  function Run(rule: Rule, events: seq<Event>): (r: Trace) {
    if events == [] then Trace(None, [])
    else Step(rule, Run(rule, events[..|events| - 1]), events[|events| - 1])
  }

  predicate Clocked(events: seq<Event>) {
    forall i, j | 0 <= i < j < |events| :: events[i].now <= events[j].now
  }

  // ---------------------------------------------------------------------------
  // Blocks.

  predicate Blocks(a: Answer, rule: Rule, until: nat) {
    a.decision.JustBlocked? && a.now + BlockTime(rule) == until
  }

  // Of every block that is not over the row knows the end.
  ghost predicate BlocksKnown(rule: Rule, t: Trace, clock: nat) {
    && (forall i | 0 <= i < |t.answers| :: t.answers[i].now <= clock)
    && forall i | 0 <= i < |t.answers| && t.answers[i].decision.JustBlocked? ::
         t.answers[i].now + BlockTime(rule) < clock
         || (t.row.Some? && t.row.value.blockedUntil == Some(t.answers[i].now + BlockTime(rule)))
  }

  ghost predicate BlocksFarApart(rule: Rule, answers: seq<Answer>) {
    forall i, j | 0 <= i < j < |answers| && answers[i].decision.JustBlocked? && answers[j].decision.JustBlocked? ::
      answers[j].now > answers[i].now + BlockTime(rule)
  }

  // And what it holds is the end of a block.
  ghost predicate RowIsOfBlock(rule: Rule, t: Trace) {
    t.row.Some? && t.row.value.blockedUntil.Some? ==>
      exists i :: 0 <= i < |t.answers| && Blocks(t.answers[i], rule, t.row.value.blockedUntil.value)
  }

  ghost predicate RemembersBlock(rule: Rule, t: Trace, clock: nat) {
    BlocksKnown(rule, t, clock) && BlocksFarApart(rule, t.answers) && RowIsOfBlock(rule, t)
  }

  lemma StepKeepsKnown(rule: Rule, t: Trace, clock: nat, e: Event)
    requires BlocksKnown(rule, t, clock) && clock <= e.now
    ensures BlocksKnown(rule, Step(rule, t, e), e.now)
  {
    hide BlockTime;
  }

  lemma StepKeepsApart(rule: Rule, t: Trace, clock: nat, e: Event)
    requires BlocksKnown(rule, t, clock) && clock <= e.now && BlocksFarApart(rule, t.answers)
    ensures BlocksFarApart(rule, Step(rule, t, e).answers)
  {
    hide BlockTime;
  }

  lemma StepKeepsRowOfBlock(rule: Rule, t: Trace, e: Event)
    requires RowIsOfBlock(rule, t)
    ensures RowIsOfBlock(rule, Step(rule, t, e))
  {
    hide BlockTime;
    var t' := Step(rule, t, e);
    if t'.row.Some? && t'.row.value.blockedUntil.Some? {
      var until := t'.row.value.blockedUntil.value;
      if t.row.Some? && t.row.value.blockedUntil == Some(until) {
        var i :| 0 <= i < |t.answers| && Blocks(t.answers[i], rule, until);
        assert t'.answers[i] == t.answers[i];
      } else {
        assert Blocks(t'.answers[|t.answers|], rule, until);
      }
    }
  }

  lemma StepKeepsBlocks(rule: Rule, t: Trace, clock: nat, e: Event)
    requires RemembersBlock(rule, t, clock) && clock <= e.now
    ensures RemembersBlock(rule, Step(rule, t, e), e.now)
  {
    hide BlocksKnown, BlocksFarApart, RowIsOfBlock, Step;
    StepKeepsKnown(rule, t, clock, e);
    StepKeepsApart(rule, t, clock, e);
    StepKeepsRowOfBlock(rule, t, e);
  }

  lemma {:induction false} RunKeepsBlocks(rule: Rule, events: seq<Event>)
    requires Clocked(events)
    ensures RemembersBlock(rule, Run(rule, events), if events == [] then 0 else events[|events| - 1].now)
  {
    hide RemembersBlock, Step;
    if events == [] {
      NothingRemembered(rule);
    } else {
      RunKeepsBlocks(rule, events[..|events| - 1]);
      StepKeepsBlocks(rule, Run(rule, events[..|events| - 1]),
                      if |events| == 1 then 0 else events[|events| - 2].now, events[|events| - 1]);
    }
  }

  lemma NothingRemembered(rule: Rule)
    ensures RemembersBlock(rule, Run(rule, []), 0)
  {
  }

  // However requests and cleanups follow each other, on however many replicas: two answers
  // that start a block are more than a block apart.
  lemma BlocksApart(rule: Rule, events: seq<Event>, i: nat, j: nat)
    requires Clocked(events)
    requires i < j < |Run(rule, events).answers|
    requires Run(rule, events).answers[i].decision.JustBlocked? && Run(rule, events).answers[j].decision.JustBlocked?
    ensures Run(rule, events).answers[j].now > Run(rule, events).answers[i].now + BlockTime(rule)
  {
    hide Run, BlockTime;
    RunKeepsBlocks(rule, events);
  }

  // A block in force stays as it is, neither extended nor lifted, and refuses.
  lemma BlockStands(rule: Rule, t: Trace, e: Event)
    requires t.row.Some? && t.row.value.blockedUntil.Some? && e.now < t.row.value.blockedUntil.value
    ensures var t' := Step(rule, t, e);
      && t'.row.Some? && t'.row.value.blockedUntil == t.row.value.blockedUntil
      && (e.Request? ==> t'.answers[|t.answers|].decision == StillBlocked)
      && (e.Sweep? ==> t' == t)
  {
    hide BlockTime;
  }

  // ---------------------------------------------------------------------------
  // The quota of a window.

  // Let through within the quota: the hit is one of the first `maxRequests`.
  predicate Ordinary(rule: Rule, a: Answer, window: nat) {
    a.window == window && a.decision.Allowed? && a.hits <= rule.maxRequests
  }

  ghost function LetThrough(rule: Rule, answers: seq<Answer>, window: nat): (r: nat) {
    if answers == [] then 0
    else
      LetThrough(rule, answers[..|answers| - 1], window)
      + if Ordinary(rule, answers[|answers| - 1], window) then 1 else 0
  }

  lemma LetThroughGrows(rule: Rule, answers: seq<Answer>, a: Answer, window: nat)
    ensures LetThrough(rule, answers + [a], window)
      == LetThrough(rule, answers, window) + if Ordinary(rule, a, window) then 1 else 0
  {
    assert (answers + [a])[..|answers|] == answers;
  }

  // Some hit was counted for this window or a later one.
  predicate Reached(answers: seq<Answer>, window: nat) {
    exists i :: 0 <= i < |answers| && answers[i].window >= window
  }

  lemma {:induction false} NothingBeyond(rule: Rule, answers: seq<Answer>, window: nat)
    requires !Reached(answers, window)
    ensures LetThrough(rule, answers, window) == 0
  {
    if answers != [] {
      var last := |answers| - 1;
      assert answers[last].window < window;
      assert forall i | 0 <= i < last :: answers[..last][i] == answers[i];
      NothingBeyond(rule, answers[..last], window);
    }
  }

  // The request brings an index that is behind the row. (A row that a cleanup has removed was
  // of the latest window that was counted.)
  predicate Late(t: Trace, index: nat) {
    if t.row.Some? then index < t.row.value.window else Reached(t.answers, index)
  }

  predicate Timely(rule: Rule, events: seq<Event>) {
    events == [] ||
    var before, last := events[..|events| - 1], events[|events| - 1];
    Timely(rule, before) && (last.Request? ==> !Late(Run(rule, before), last.index))
  }

  // In the window of the row no more was let through than hits are counted; in every other
  // one no more than the limit; and the row is of the latest window.
  ghost predicate QuotaHolds(rule: Rule, t: Trace) {
    && (t.row.Some? ==> !Reached(t.answers, t.row.value.window + 1))
    && forall w: nat :: WindowQuota(rule, t, w)
  }

  ghost predicate WindowQuota(rule: Rule, t: Trace, w: nat) {
    && LetThrough(rule, t.answers, w) <= rule.maxRequests
    && (t.row.Some? && t.row.value.window == w ==> LetThrough(rule, t.answers, w) <= t.row.value.hits)
  }

  lemma RequestKeepsWindowQuota(rule: Rule, t: Trace, now: nat, index: nat, w: nat)
    requires QuotaHolds(rule, t) && !Late(t, index)
    ensures WindowQuota(rule, Step(rule, t, Request(now, index)), w)
  {
    var t' := Step(rule, t, Request(now, index));
    hide LetThrough, BlockTime;
    assert WindowQuota(rule, t, w);
    LetThroughGrows(rule, t.answers, t'.answers[|t.answers|], w);
    if w == index && (t.row.None? || t.row.value.window < index) {
      assert !Reached(t.answers, index);
      NothingBeyond(rule, t.answers, index);
    }
  }

  lemma StepKeepsQuota(rule: Rule, t: Trace, e: Event)
    requires QuotaHolds(rule, t) && (e.Request? ==> !Late(t, e.index))
    ensures QuotaHolds(rule, Step(rule, t, e))
  {
    var t' := Step(rule, t, e);
    hide LetThrough, BlockTime;
    match e
    case Request(now, index) =>
      forall w: nat ensures WindowQuota(rule, t', w) {
        hide QuotaHolds, Step, Late;
        RequestKeepsWindowQuota(rule, t, now, index, w);
      }
    case Sweep(_) =>
      forall w: nat ensures WindowQuota(rule, t', w) {
        assert WindowQuota(rule, t, w);
      }
  }

  // Whatever clocks the processes have, and however long a request takes: as long as none
  // is late, the quota of every window is kept.
  lemma {:induction false} TimelyKeepsQuota(rule: Rule, events: seq<Event>)
    requires Timely(rule, events)
    ensures QuotaHolds(rule, Run(rule, events))
  {
    hide QuotaHolds, Step, Late;
    if events == [] {
      NothingYet(rule);
    } else {
      TimelyKeepsQuota(rule, events[..|events| - 1]);
      StepKeepsQuota(rule, Run(rule, events[..|events| - 1]), events[|events| - 1]);
    }
  }

  lemma NothingYet(rule: Rule)
    ensures QuotaHolds(rule, Run(rule, []))
  {
  }

  // With a limit of nothing every request is over it.
  lemma {:induction false} NothingLetThrough(rule: Rule, events: seq<Event>, window: nat)
    requires rule.maxRequests == 0
    ensures LetThrough(rule, Run(rule, events).answers, window) == 0
  {
    if events != [] {
      var t := Run(rule, events[..|events| - 1]);
      NothingLetThrough(rule, events[..|events| - 1], window);
      if events[|events| - 1].Request? {
        LetThroughGrows(rule, t.answers, Run(rule, events).answers[|t.answers|], window);
      }
    }
  }

  // ---------------------------------------------------------------------------
  // A late request.

  // So many requests at one instant, for one window.
  function Burst(n: nat, now: nat, index: nat): (events: seq<Event>) {
    seq(n, _ => Request(now, index))
  }

  lemma BurstStep(rule: Rule, t: Trace, n: nat, now: nat, index: nat)
    requires n < rule.maxRequests
    requires t.row == if n == 0 then None else Some(Row(n, index, None, now))
    ensures Step(rule, t, Request(now, index))
      == Trace(Some(Row(n + 1, index, None, now)), t.answers + [Answer(now, index, n + 1, Allowed)])
  {
  }

  lemma {:induction false} BurstPasses(rule: Rule, n: nat, now: nat, index: nat)
    requires n <= rule.maxRequests
    ensures var t := Run(rule, Burst(n, now, index));
      && t.row == (if n == 0 then None else Some(Row(n, index, None, now)))
      && LetThrough(rule, t.answers, index) == n
  {
    hide Step, LetThrough, Run, Burst;
    if n == 0 {
      NoBurst(rule, now, index);
    } else {
      var t := Run(rule, Burst(n - 1, now, index));
      BurstPasses(rule, n - 1, now, index);
      BurstGrows(n - 1, now, index);
      RunLast(rule, Burst(n - 1, now, index), Request(now, index));
      BurstStep(rule, t, n - 1, now, index);
      LetThroughGrows(rule, t.answers, Answer(now, index, n, Allowed), index);
    }
  }

  lemma NoBurst(rule: Rule, now: nat, index: nat)
    ensures Run(rule, Burst(0, now, index)) == Trace(None, []) && LetThrough(rule, [], index) == 0
  {
  }

  lemma BurstGrows(n: nat, now: nat, index: nat)
    ensures Burst(n + 1, now, index) == Burst(n, now, index) + [Request(now, index)]
  {
  }

  lemma RunLast(rule: Rule, events: seq<Event>, e: Event)
    ensures Run(rule, events + [e]) == Step(rule, Run(rule, events), e)
  {
    hide Step;
    assert (events + [e])[..|events|] == events;
  }

  // The late request of window 0 sets the row back, and the quota of window 1 starts again.
  function LateRun(rule: Rule): (events: seq<Event>) {
    var now := WindowSeconds(rule) * SECOND;
    Burst(rule.maxRequests, now, 1) + [Request(now, 0)] + [Request(now, 1)]
  }

  // No index is ahead of the clock: each may have been read, some time before.
  predicate AllRead(rule: Rule, events: seq<Event>) {
    forall e | e in events && e.Request? :: e.index <= WindowIndex(rule, e.now)
  }

  lemma LateRunIsRead(rule: Rule)
    ensures Clocked(LateRun(rule)) && AllRead(rule, LateRun(rule))
  {
    SecondWindow(WindowSeconds(rule));
  }

  lemma SecondWindow(seconds: nat)
    requires seconds >= 1
    ensures seconds * SECOND / SECOND / seconds == 1
  {
  }

  lemma LateSteps(rule: Rule, t: Trace, now: nat)
    requires rule.maxRequests > 0
    requires t.row == Some(Row(rule.maxRequests, 1, None, now))
    ensures var t' := Step(rule, Step(rule, t, Request(now, 0)), Request(now, 1));
      LetThrough(rule, t'.answers, 1) == LetThrough(rule, t.answers, 1) + 1
  {
    hide LetThrough;
    var late := Step(rule, t, Request(now, 0));
    LetThroughGrows(rule, t.answers, Answer(now, 0, 1, Allowed), 1);
    LetThroughGrows(rule, late.answers, Answer(now, 1, 1, Allowed), 1);
  }

  lemma LateRequestLeaks(rule: Rule)
    requires rule.maxRequests > 0
    ensures Clocked(LateRun(rule)) && AllRead(rule, LateRun(rule))
    ensures LetThrough(rule, Run(rule, LateRun(rule)).answers, 1) == rule.maxRequests + 1
  {
    LateRunIsRead(rule);
    var n, now := rule.maxRequests, WindowSeconds(rule) * SECOND;
    BurstPasses(rule, n, now, 1);
    RunLast(rule, Burst(n, now, 1), Request(now, 0));
    RunLast(rule, Burst(n, now, 1) + [Request(now, 0)], Request(now, 1));
    hide Run, Step, LetThrough, Burst;
    LateSteps(rule, Run(rule, Burst(n, now, 1)), now);
  }

  ghost predicate WithinQuota(rule: Rule, events: seq<Event>) {
    forall window: nat :: LetThrough(rule, Run(rule, events).answers, window) <= rule.maxRequests
  }

  // The quota of every window is kept, in every run, exactly when no request may be late
  // (or nothing is let through at all).
  lemma QuotaIffTimely(rule: Rule, mayBeLate: bool)
    ensures (forall events: seq<Event> | Clocked(events) && (mayBeLate || Timely(rule, events)) ::
               WithinQuota(rule, events))
      <==> !mayBeLate || rule.maxRequests == 0
  {
    hide Run, Clocked, LetThrough, Timely, LateRun;
    if mayBeLate && rule.maxRequests > 0 {
      LateRequestLeaks(rule);
      assert !WithinQuota(rule, LateRun(rule));
    } else {
      forall events: seq<Event> | Clocked(events) && (mayBeLate || Timely(rule, events))
        ensures WithinQuota(rule, events)
      {
        EveryWindow(rule, events);
      }
    }
  }

  lemma EveryWindow(rule: Rule, events: seq<Event>)
    requires Timely(rule, events) || rule.maxRequests == 0
    ensures WithinQuota(rule, events)
  {
    hide Run, LetThrough, Timely;
    if rule.maxRequests == 0 {
      forall window: nat ensures LetThrough(rule, Run(rule, events).answers, window) == 0 {
        NothingLetThrough(rule, events, window);
      }
    } else {
      TimelyKeepsQuota(rule, events);
      forall window: nat ensures LetThrough(rule, Run(rule, events).answers, window) <= rule.maxRequests {
        assert WindowQuota(rule, Run(rule, events), window);
      }
    }
  }

  // ---------------------------------------------------------------------------
  // Requests that are executed in the window they have read.

  predicate Punctual(rule: Rule, events: seq<Event>) {
    forall e | e in events && e.Request? :: e.index == WindowIndex(rule, e.now)
  }

  lemma {:induction false} ProductGrows(p: nat, q: nat, n: nat)
    ensures p > q ==> p * n >= q * n + n
    decreases p
  {
    if p > q {
      assert p * n == (p - 1) * n + n;
      ProductGrows(p - 1, q, n);
    }
  }

  lemma DivideGrows(a: nat, b: nat, n: nat)
    requires a <= b && n > 0
    ensures a / n <= b / n
  {
    ProductGrows(a / n, b / n, n);
  }

  lemma DivideStep(a: nat, b: nat, n: nat)
    requires a + n <= b && n > 0
    ensures a / n + 1 <= b / n
  {
    var p, q := a / n, b / n;
    assert p * n <= a && b < q * n + n;
    ProductGrows(p + 1, q, n);
    assert (p + 1) * n == p * n + n;
  }

  lemma IndexGrows(rule: Rule, early: nat, late: nat)
    requires early <= late
    ensures WindowIndex(rule, early) <= WindowIndex(rule, late)
  {
    DivideGrows(early, late, SECOND);
    DivideGrows(early / SECOND, late / SECOND, WindowSeconds(rule));
  }

  // An hour later it is another window.
  lemma HourIsAnotherWindow(rule: Rule, early: nat, late: nat)
    requires early + HOUR < late && WindowSeconds(rule) <= 3600
    ensures WindowIndex(rule, early) < WindowIndex(rule, late)
  {
    DivideGrows(early + HOUR, late, SECOND);
    assert (early + HOUR) / SECOND == early / SECOND + 3600;
    DivideStep(early / SECOND, late / SECOND, WindowSeconds(rule));
  }

  // The row is of the latest window; a row that is gone was of one that is over.
  ghost predicate InPlace(rule: Rule, t: Trace, clock: nat) {
    if t.row.Some? then
      && !Reached(t.answers, t.row.value.window + 1)
      && t.row.value.window == WindowIndex(rule, t.row.value.updatedAt) && t.row.value.updatedAt <= clock
    else !Reached(t.answers, WindowIndex(rule, clock))
  }

  lemma PunctualRequest(rule: Rule, t: Trace, clock: nat, now: nat)
    requires InPlace(rule, t, clock) && clock <= now
    ensures var index := WindowIndex(rule, now);
      !Late(t, index) && InPlace(rule, Step(rule, t, Request(now, index)), now)
  {
    IndexGrows(rule, clock, now);
    if t.row.Some? {
      IndexGrows(rule, t.row.value.updatedAt, now);
    }
    hide WindowIndex, BlockTime;
  }

  lemma PunctualSweep(rule: Rule, t: Trace, clock: nat, now: nat)
    requires InPlace(rule, t, clock) && clock <= now && WindowSeconds(rule) <= 3600
    ensures InPlace(rule, Step(rule, t, Sweep(now)), now)
  {
    IndexGrows(rule, clock, now);
    if t.row.Some? && t.row.value.updatedAt + HOUR < now {
      HourIsAnotherWindow(rule, t.row.value.updatedAt, now);
    }
    hide WindowIndex;
  }

  // With windows of at most an hour a punctual request is never late, for a row is removed
  // only when its window is over.
  lemma {:induction false} PunctualIsTimely(rule: Rule, events: seq<Event>)
    requires Clocked(events) && Punctual(rule, events) && WindowSeconds(rule) <= 3600
    ensures Timely(rule, events)
    ensures InPlace(rule, Run(rule, events), if events == [] then 0 else events[|events| - 1].now)
  {
    hide InPlace, Late, Step, WindowSeconds, WindowIndex;
    if events == [] {
      InPlaceAtFirst(rule);
    } else {
      var before, last := events[..|events| - 1], events[|events| - 1];
      PunctualIsTimely(rule, before);
      var clock := if before == [] then 0 else before[|before| - 1].now;
      assert last in events;
      match last
      case Request(now, _) => PunctualRequest(rule, Run(rule, before), clock, now);
      case Sweep(now) => PunctualSweep(rule, Run(rule, before), clock, now);
    }
  }

  lemma InPlaceAtFirst(rule: Rule)
    ensures InPlace(rule, Run(rule, []), 0)
  {
  }

  // ---------------------------------------------------------------------------
  // A window longer than the idle time of the cleanup.

  lemma IndexOfZero(rule: Rule)
    ensures WindowIndex(rule, 0) == 0
  {
  }

  lemma LateIndexIsZero(rule: Rule)
    requires WindowSeconds(rule) > 3600
    ensures WindowIndex(rule, HOUR + 1) == 0
  {
    assert (HOUR + 1) / SECOND == 3600;
    SmallQuotient(3600, WindowSeconds(rule));
  }

  // A burst that fills window 0, the cleanup an hour later, and one request more.
  function LongRun(rule: Rule): (events: seq<Event>) {
    Burst(rule.maxRequests, 0, 0) + [Sweep(HOUR + 1)] + [Request(HOUR + 1, 0)]
  }

  lemma LongRunIsPunctual(rule: Rule)
    requires WindowSeconds(rule) > 3600
    ensures Clocked(LongRun(rule)) && Punctual(rule, LongRun(rule))
  {
    IndexOfZero(rule);
    LateIndexIsZero(rule);
    hide WindowIndex, WindowSeconds;
  }

  lemma LongWindowLeaks(rule: Rule)
    requires WindowSeconds(rule) > 3600 && rule.maxRequests > 0
    ensures Clocked(LongRun(rule)) && Punctual(rule, LongRun(rule))
    ensures LetThrough(rule, Run(rule, LongRun(rule)).answers, 0) == rule.maxRequests + 1
  {
    LongRunIsPunctual(rule);
    var burst := Burst(rule.maxRequests, 0, 0);
    BurstPasses(rule, rule.maxRequests, 0, 0);
    RunLast(rule, burst, Sweep(HOUR + 1));
    RunLast(rule, burst + [Sweep(HOUR + 1)], Request(HOUR + 1, 0));
    BurstIsSwept(rule, Run(rule, burst));
    hide Run, Step, Burst, Clocked, LetThrough, WindowIndex, WindowSeconds;
    LastOfBurst(rule, Run(rule, burst + [Sweep(HOUR + 1)]));
  }

  lemma BurstIsSwept(rule: Rule, t: Trace)
    requires t.row == None || (t.row.value.blockedUntil == None && t.row.value.updatedAt == 0)
    ensures Step(rule, t, Sweep(HOUR + 1)) == t.(row := None)
  {
  }

  lemma SmallQuotient(a: nat, n: nat)
    requires a < n
    ensures a / n == 0
  {
  }

  lemma LastOfBurst(rule: Rule, t: Trace)
    requires t.row == None && rule.maxRequests > 0
    ensures LetThrough(rule, Step(rule, t, Request(HOUR + 1, 0)).answers, 0) == LetThrough(rule, t.answers, 0) + 1
  {
    hide LetThrough;
    LetThroughGrows(rule, t.answers, Answer(HOUR + 1, 0, 1, Allowed), 0);
  }

  // ---------------------------------------------------------------------------
  // The instant in which a block ends.

  // A request over the limit is let through exactly in that instant, for then neither
  // comparison with the clock holds.
  lemma OverLimitAllowedIff(rule: Rule, row: Row, now: nat)
    requires row.hits > rule.maxRequests
    ensures Decided(rule, row, now).1.Allowed? <==> row.blockedUntil == Some(now)
  {
  }

  ghost predicate BlockEnds(rule: Rule, answers: seq<Answer>, j: nat)
    requires j < |answers|
  {
    exists i :: 0 <= i < j && Blocks(answers[i], rule, answers[j].now)
  }

  // A block that an earlier answer began is not over.
  ghost predicate InBlock(rule: Rule, answers: seq<Answer>, j: nat)
    requires j < |answers|
  {
    exists i :: 0 <= i < j && answers[i].decision.JustBlocked? && answers[j].now < answers[i].now + BlockTime(rule)
  }

  // What every answer of a run is, by those before it.
  ghost predicate AnswerOk(rule: Rule, answers: seq<Answer>, j: nat)
    requires j < |answers|
  {
    && (answers[j].decision.StillBlocked? <==> InBlock(rule, answers, j))
    && (answers[j].decision.JustBlocked? <==>
          answers[j].hits > rule.maxRequests && !InBlock(rule, answers, j) && !BlockEnds(rule, answers, j))
    && (answers[j].hits > rule.maxRequests ==> (answers[j].decision.Allowed? <==> BlockEnds(rule, answers, j)))
  }

  lemma BlockEndsStays(rule: Rule, answers: seq<Answer>, a: Answer, j: nat)
    requires j < |answers|
    ensures BlockEnds(rule, answers + [a], j) <==> BlockEnds(rule, answers, j)
    ensures InBlock(rule, answers + [a], j) <==> InBlock(rule, answers, j)
  {
    var more := answers + [a];
    hide BlockTime;
    assert forall i | 0 <= i <= j :: more[i] == answers[i];
    if BlockEnds(rule, answers, j) {
      var i :| 0 <= i < j && Blocks(answers[i], rule, answers[j].now);
      assert Blocks(more[i], rule, more[j].now);
    }
  }

  // The row holds the end of a block, now or later, exactly if one of the answers began that
  // block.
  lemma EndIsKnown(rule: Rule, t: Trace, clock: nat, a: Answer)
    requires RemembersBlock(rule, t, clock) && clock <= a.now
    ensures BlockEnds(rule, t.answers + [a], |t.answers|) <==> t.row.Some? && t.row.value.blockedUntil == Some(a.now)
  {
    hide BlockTime, BlocksFarApart;
    var answers, n := t.answers + [a], |t.answers|;
    assert forall i | 0 <= i < n :: answers[i] == t.answers[i];
    if t.row.Some? && t.row.value.blockedUntil == Some(a.now) {
      var i :| 0 <= i < n && Blocks(t.answers[i], rule, a.now);
      assert Blocks(answers[i], rule, answers[n].now);
    }
  }

  lemma BlockIsKnown(rule: Rule, t: Trace, clock: nat, a: Answer)
    requires RemembersBlock(rule, t, clock) && clock <= a.now
    ensures InBlock(rule, t.answers + [a], |t.answers|)
      <==> t.row.Some? && t.row.value.blockedUntil.Some? && a.now < t.row.value.blockedUntil.value
  {
    hide BlockTime, BlocksFarApart;
    var answers, n := t.answers + [a], |t.answers|;
    assert forall i | 0 <= i < n :: answers[i] == t.answers[i];
    if t.row.Some? && t.row.value.blockedUntil.Some? && a.now < t.row.value.blockedUntil.value {
      var i :| 0 <= i < n && Blocks(t.answers[i], rule, t.row.value.blockedUntil.value);
      assert answers[i].decision.JustBlocked? && a.now < answers[i].now + BlockTime(rule);
    }
  }

  lemma NewAnswerOk(rule: Rule, t: Trace, clock: nat, now: nat, index: nat)
    requires RemembersBlock(rule, t, clock) && clock <= now
    ensures var answers := Step(rule, t, Request(now, index)).answers; AnswerOk(rule, answers, |answers| - 1)
  {
    hide BlockTime, RemembersBlock, InBlock, BlockEnds;
    var a := Step(rule, t, Request(now, index)).answers[|t.answers|];
    EndIsKnown(rule, t, clock, a);
    BlockIsKnown(rule, t, clock, a);
  }

  // In every run: refused is exactly what arrives in a block, a block begins exactly over the
  // limit, and what is let through beyond the quota of a window is exactly what arrives over
  // the limit in the instant at which a block ends.
  lemma {:induction false} BeyondQuotaIffBlockEnds(rule: Rule, events: seq<Event>, j: nat)
    requires Clocked(events) && j < |Run(rule, events).answers|
    ensures AnswerOk(rule, Run(rule, events).answers, j)
  {
    hide BlockEnds, InBlock, RemembersBlock, Step;
    var before, last := events[..|events| - 1], events[|events| - 1];
    var t := Run(rule, before);
    RunKeepsBlocks(rule, before);
    AnswersGrow(rule, t, last);
    if j < |t.answers| {
      BeyondQuotaIffBlockEnds(rule, before, j);
      if last.Request? {
        BlockEndsStays(rule, t.answers, Run(rule, events).answers[|t.answers|], j);
      }
    } else {
      NewAnswerOk(rule, t, if before == [] then 0 else before[|before| - 1].now, last.now, last.index);
    }
  }

  lemma AnswersGrow(rule: Rule, t: Trace, e: Event)
    ensures var t' := Step(rule, t, e);
      if e.Sweep? then t'.answers == t.answers
      else |t'.answers| == |t.answers| + 1 && t'.answers == t.answers + [t'.answers[|t.answers|]]
  {
    hide BlockTime;
  }

  // ---------------------------------------------------------------------------
  // What the hits count.

  // The row carries the hits, the window and the instant of the last answer; without a row
  // the last answer, if any, is more than an hour old.
  ghost predicate RowIsOfLast(t: Trace, clock: nat) {
    if t.answers == [] then t.row == None
    else
      var last := t.answers[|t.answers| - 1];
      && last.now <= clock
      && if t.row.None? then last.now + HOUR < clock
         else t.row.value.hits == last.hits && t.row.value.window == last.window && t.row.value.updatedAt == last.now
  }

  // The first hit of a window is 1. In one window the next is one more, unless a cleanup came
  // between, which takes more than an hour.
  predicate HitFollows(answers: seq<Answer>, j: nat)
    requires j < |answers|
  {
    if j == 0 || answers[j - 1].window != answers[j].window then answers[j].hits == 1
    else
      || answers[j].hits == answers[j - 1].hits + 1
      || (answers[j].hits == 1 && answers[j - 1].now + HOUR < answers[j].now)
  }

  lemma StepKeepsHits(rule: Rule, t: Trace, clock: nat, e: Event)
    requires RowIsOfLast(t, clock) && clock <= e.now
    requires forall j: nat | j < |t.answers| :: HitFollows(t.answers, j)
    ensures var t' := Step(rule, t, e);
      RowIsOfLast(t', e.now) && forall j: nat | j < |t'.answers| :: HitFollows(t'.answers, j)
  {
    hide BlockTime;
    var t' := Step(rule, t, e);
    forall j: nat | j < |t'.answers| ensures HitFollows(t'.answers, j) {
      assert j < |t.answers| ==> HitFollows(t.answers, j);
    }
  }

  lemma {:induction false} HitsCount(rule: Rule, events: seq<Event>)
    requires Clocked(events)
    ensures forall j: nat | j < |Run(rule, events).answers| :: HitFollows(Run(rule, events).answers, j)
    ensures RowIsOfLast(Run(rule, events), if events == [] then 0 else events[|events| - 1].now)
  {
    hide Step;
    if events != [] {
      var before := events[..|events| - 1];
      HitsCount(rule, before);
      StepKeepsHits(rule, Run(rule, before), if before == [] then 0 else before[|before| - 1].now,
                    events[|events| - 1]);
    }
  }

  // ---------------------------------------------------------------------------
  // More than the quota, for every rule: the limit is passed once, and when the block ends
  // there come as many requests and one more.

  lemma LimitPassed(rule: Rule)
    ensures var t := Run(rule, Burst(rule.maxRequests, 0, 0) + [Request(0, 0)]);
      t.row == Some(Row(rule.maxRequests + 1, 0, Some(BlockTime(rule)), 0))
  {
    BurstPasses(rule, rule.maxRequests, 0, 0);
    RunLast(rule, Burst(rule.maxRequests, 0, 0), Request(0, 0));
    hide Run, Burst, BlockTime;
  }

  lemma EdgeStep(rule: Rule, t: Trace, end: nat, index: nat, k: nat)
    requires t.row.Some? && t.row.value.blockedUntil == Some(end)
    requires k > 0 ==> t.row.value.hits >= k && t.row.value.window == index
    ensures var t' := Step(rule, t, Request(end, index));
      && t'.row.Some? && t'.row.value.blockedUntil == Some(end)
      && t'.row.value.hits >= k + 1 && t'.row.value.window == index
      && |t'.answers| == |t.answers| + 1
      && t'.answers[|t.answers|] == Answer(end, index, t'.row.value.hits, Allowed)
  {
  }

  lemma {:induction false} EdgeRun(rule: Rule, before: seq<Event>, end: nat, index: nat, k: nat)
    requires var t := Run(rule, before); t.row.Some? && t.row.value.blockedUntil == Some(end)
    ensures var t := Run(rule, before + Burst(k, end, index));
      && t.row.Some? && t.row.value.blockedUntil == Some(end)
      && (k > 0 ==>
            && t.row.value.hits >= k && t.row.value.window == index
            && t.answers != []
            && t.answers[|t.answers| - 1] == Answer(end, index, t.row.value.hits, Allowed))
  {
    hide Step;
    if k == 0 {
      assert before + Burst(0, end, index) == before;
    } else {
      EdgeRun(rule, before, end, index, k - 1);
      var front := before + Burst(k - 1, end, index);
      assert before + Burst(k, end, index) == front + [Request(end, index)];
      RunLast(rule, front, Request(end, index));
      EdgeStep(rule, Run(rule, front), end, index, k - 1);
    }
  }

  function EdgeOf(rule: Rule): (events: seq<Event>) {
    var end := BlockTime(rule);
    Burst(rule.maxRequests, 0, 0) + [Request(0, 0)] + Burst(rule.maxRequests + 1, end, WindowIndex(rule, end))
  }

  lemma EdgeIsPunctual(rule: Rule)
    ensures Clocked(EdgeOf(rule)) && Punctual(rule, EdgeOf(rule))
  {
    IndexOfZero(rule);
    hide WindowIndex, BlockTime;
  }

  lemma EdgeLetsThrough(rule: Rule)
    ensures Clocked(EdgeOf(rule)) && Punctual(rule, EdgeOf(rule))
    ensures var answers := Run(rule, EdgeOf(rule)).answers;
      && answers != []
      && answers[|answers| - 1].decision.Allowed? && answers[|answers| - 1].hits > rule.maxRequests
  {
    LimitPassed(rule);
    EdgeIsPunctual(rule);
    var end := BlockTime(rule);
    EdgeRun(rule, Burst(rule.maxRequests, 0, 0) + [Request(0, 0)], end, WindowIndex(rule, end), rule.maxRequests + 1);
    hide Run, Burst, Clocked, Punctual, BlockTime, WindowIndex;
  }

  // The quota of every window is kept in every run of punctual requests, cleanups included,
  // exactly when windows are no longer than an hour (or nothing is let through at all).
  lemma QuotaIffShortWindow(rule: Rule)
    ensures (forall events: seq<Event> | Clocked(events) && Punctual(rule, events) :: WithinQuota(rule, events))
      <==> WindowSeconds(rule) <= 3600 || rule.maxRequests == 0
  {
    hide Run, Clocked, Punctual, LetThrough, LongRun, Timely;
    if WindowSeconds(rule) > 3600 && rule.maxRequests > 0 {
      LongWindowLeaks(rule);
      assert !WithinQuota(rule, LongRun(rule));
    } else {
      forall events: seq<Event> | Clocked(events) && Punctual(rule, events) ensures WithinQuota(rule, events) {
        if rule.maxRequests > 0 {
          PunctualIsTimely(rule, events);
        }
        EveryWindow(rule, events);
      }
    }
  }
}
