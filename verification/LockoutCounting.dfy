// Concurrent failed logins (increment_failed_attempts in src/services/account_lockout.rs):
// n callers on one row, each statement of each caller an atomic step, in any order.
module LockoutCounting {
  import opened Base
  import opened Lockout

  // Where a caller stands: after the first, the second, the third statement.
  datatype Stage =
    | Waiting
    | Added
    | Tried(justLocked: bool)
    | Finished(attempts: nat, justLocked: bool)

  datatype State = State(row: Option<Row>, callers: seq<Stage>)

  datatype Action = Add(i: nat, now: int) | TryLock(i: nat, now: int) | ReadBack(i: nat)

  // One statement; a statement that is not due changes nothing.
  function Step(config: Config, s: State, a: Action): (r: State) {
    if a.i >= |s.callers| then s
    else
      match a
      case Add(i, now) =>
        if s.callers[i].Waiting? then State(Some(Bumped(s.row, now)), s.callers[i := Added]) else s
      case TryLock(i, now) =>
        if s.callers[i].Added? && s.row.Some? then
          State(Some(AfterLock(config, s.row.value, now)), s.callers[i := Tried(LocksNow(config, s.row.value))])
        else s
      case ReadBack(i) =>
        if s.callers[i].Tried? && s.row.Some? then
          s.(callers := s.callers[i := Finished(s.row.value.attempts, s.callers[i].justLocked)])
        else s
  }

  function Run(config: Config, s: State, actions: seq<Action>): (r: State)
    decreases |actions|
  {
    if actions == [] then s else Run(config, Step(config, s, actions[0]), actions[1..])
  }

  predicate HasAdded(stage: Stage) {
    !stage.Waiting?
  }

  predicate Pending(stage: Stage) {
    stage.Added?
  }

  predicate SawLock(stage: Stage) {
    (stage.Tried? || stage.Finished?) && stage.justLocked
  }

  function Count(callers: seq<Stage>, p: Stage -> bool): (n: nat)
    ensures n <= |callers|
  {
    if callers == [] then 0 else Count(callers[1..], p) + if p(callers[0]) then 1 else 0
  }

  lemma {:induction false} CountUpdate(callers: seq<Stage>, i: nat, stage: Stage, p: Stage -> bool)
    requires i < |callers|
    ensures Count(callers[i := stage], p) + (if p(callers[i]) then 1 else 0)
      == Count(callers, p) + if p(stage) then 1 else 0
  {
    if i == 0 {
      assert callers[0 := stage][1..] == callers[1..];
    } else {
      assert callers[i := stage][1..] == callers[1..][i - 1 := stage];
      CountUpdate(callers[1..], i - 1, stage, p);
    }
  }

  lemma {:induction false} CountAll(callers: seq<Stage>, p: Stage -> bool, all: bool)
    requires forall i | 0 <= i < |callers| :: p(callers[i]) == all
    ensures Count(callers, p) == if all then |callers| else 0
  {
    if callers != [] {
      CountAll(callers[1..], p, all);
    }
  }

  lemma {:induction false} CountOne(callers: seq<Stage>, p: Stage -> bool)
    requires Count(callers, p) == 1
    ensures exists i :: 0 <= i < |callers| && p(callers[i]) && forall j | 0 <= j < |callers| :: p(callers[j]) ==> j == i
  {
    if p(callers[0]) {
      NoneLeft(callers[1..], p);
      assert forall j | 0 < j < |callers| :: callers[j] == callers[1..][j - 1];
    } else {
      CountOne(callers[1..], p);
      var i :| 0 <= i < |callers| - 1 && p(callers[1..][i])
        && forall j | 0 <= j < |callers| - 1 :: p(callers[1..][j]) ==> j == i;
      forall j | 0 <= j < |callers| && p(callers[j]) ensures j == i + 1 {
        assert j > 0 ==> callers[j] == callers[1..][j - 1];
      }
      assert p(callers[i + 1]);
    }
  }

  lemma {:induction false} NoneLeft(callers: seq<Stage>, p: Stage -> bool)
    requires Count(callers, p) == 0
    ensures forall i | 0 <= i < |callers| :: !p(callers[i])
  {
    if callers != [] {
      NoneLeft(callers[1..], p);
      forall i | 0 <= i < |callers| ensures !p(callers[i]) {
        assert i > 0 ==> callers[i] == callers[1..][i - 1];
      }
    }
  }

  // ---------------------------------------------------------------------------

  // An unlocked row with a count below the maximum, and n callers about to start.
  ghost predicate Fresh(config: Config, s: State, count: nat) {
    && count < config.maxAttempts
    && (if s.row.None? then count == 0
        else s.row.value.attempts == count && s.row.value.status.Normal? && s.row.value.lockedUntil.None?)
    && forall i | 0 <= i < |s.callers| :: s.callers[i].Waiting?
  }

  ghost predicate Inv(config: Config, s: State, count: nat) {
    && count < config.maxAttempts
    && (if s.row.None? then count == 0 && Count(s.callers, HasAdded) == 0 && Count(s.callers, SawLock) == 0
        else RowInv(config, s.row.value, s.callers, count))
  }

  // Over the limit and not yet locked: somebody is still about to lock.
  ghost predicate RowInv(config: Config, row: Row, callers: seq<Stage>, count: nat) {
    && row.attempts == count + Count(callers, HasAdded)
    && !row.status.TemporaryLocked?
    && Count(callers, SawLock) == (if row.status.Locked? then 1 else 0)
    && (row.status.Locked? ==> row.attempts >= config.maxAttempts && row.lockedUntil.Some?)
    && (row.status.Normal? && row.attempts >= config.maxAttempts ==> Count(callers, Pending) > 0)
  }

  lemma FreshIsOk(config: Config, s: State, count: nat)
    requires Fresh(config, s, count)
    ensures Inv(config, s, count)
  {
    CountAll(s.callers, HasAdded, false);
    CountAll(s.callers, SawLock, false);
  }

  lemma StepKeepsInv(config: Config, s: State, a: Action, count: nat)
    requires Inv(config, s, count)
    ensures Inv(config, Step(config, s, a), count)
  {
    var s' := Step(config, s, a);
    if a.i < |s.callers| && s' != s {
      CountUpdate(s.callers, a.i, s'.callers[a.i], HasAdded);
      CountUpdate(s.callers, a.i, s'.callers[a.i], SawLock);
      CountUpdate(s.callers, a.i, s'.callers[a.i], Pending);
    }
  }

  lemma {:induction false} RunKeepsInv(config: Config, s: State, actions: seq<Action>, count: nat)
    requires Inv(config, s, count)
    ensures Inv(config, Run(config, s, actions), count) && |Run(config, s, actions).callers| == |s.callers|
    decreases |actions|
  {
    hide Inv;
    if actions != [] {
      StepKeepsInv(config, s, actions[0], count);
      RunKeepsInv(config, Step(config, s, actions[0]), actions[1..], count);
    }
  }

  ghost predicate OnlyOneSawLock(callers: seq<Stage>) {
    exists i ::
      0 <= i < |callers| && SawLock(callers[i]) && forall j | 0 <= j < |callers| :: SawLock(callers[j]) ==> j == i
  }

  lemma FinishedCounts(callers: seq<Stage>)
    requires forall stage | stage in callers :: stage.Finished?
    ensures Count(callers, HasAdded) == |callers| && Count(callers, Pending) == 0
  {
    hide Count;
    forall i | 0 <= i < |callers| ensures callers[i].Finished? {
      assert callers[i] in callers;
    }
    CountAll(callers, HasAdded, true);
    CountAll(callers, Pending, false);
  }

  lemma FinishedIsExact(config: Config, s: State, count: nat)
    requires Inv(config, s, count) && s.callers != []
    requires Count(s.callers, HasAdded) == |s.callers| && Count(s.callers, Pending) == 0
    ensures var reached := count + |s.callers| >= config.maxAttempts;
      && s.row.Some? && s.row.value.attempts == count + |s.callers|
      && (s.row.value.status.Locked? <==> reached)
      && Count(s.callers, SawLock) == if reached then 1 else 0
  {
    hide Count;
  }

  lemma ToldOf(callers: seq<Stage>)
    ensures Count(callers, SawLock) == 1 ==> OnlyOneSawLock(callers)
    ensures Count(callers, SawLock) == 0 ==> forall i | 0 <= i < |callers| :: !SawLock(callers[i])
  {
    hide Count, SawLock;
    if Count(callers, SawLock) == 1 {
      CountOne(callers, SawLock);
    } else if Count(callers, SawLock) == 0 {
      NoneLeft(callers, SawLock);
    }
  }

  // No count is lost: when all n callers are through, the count is up by n, the row is
  // locked exactly if that reaches the maximum, and then exactly one of them was told so.
  lemma CountIsExact(config: Config, s: State, actions: seq<Action>, count: nat)
    requires Fresh(config, s, count) && s.callers != []
    requires forall stage | stage in Run(config, s, actions).callers :: stage.Finished?
    ensures var s' := Run(config, s, actions);
      var reached := count + |s.callers| >= config.maxAttempts;
      && s'.row.Some? && s'.row.value.attempts == count + |s.callers|
      && (s'.row.value.status.Locked? <==> reached)
      && (if reached then OnlyOneSawLock(s'.callers)
          else forall i | 0 <= i < |s'.callers| :: !SawLock(s'.callers[i]))
  {
    hide Run, Inv, Fresh, Count, SawLock, OnlyOneSawLock;
    var s' := Run(config, s, actions);
    FreshIsOk(config, s, count);
    RunKeepsInv(config, s, actions, count);
    FinishedCounts(s'.callers);
    FinishedIsExact(config, s', count);
    ToldOf(s'.callers);
  }

  // Once locked, later failures never move the end of the lock.
  lemma {:induction false} LockStands(config: Config, s: State, actions: seq<Action>)
    requires s.row.Some? && s.row.value.status.Locked?
    ensures var s' := Run(config, s, actions);
      s'.row.Some? && s'.row.value.status.Locked? && s'.row.value.lockedUntil == s.row.value.lockedUntil
    decreases |actions|
  {
    if actions != [] {
      LockStands(config, Step(config, s, actions[0]), actions[1..]);
    }
  }

  // And until then every check refuses and leaves the row alone.
  lemma LockedRowRefuses(config: Config, s: State, actions: seq<Action>, seen: int, aged: int, at: int)
    requires s.row.Some? && s.row.value.status.Locked? && s.row.value.lockedUntil.Some?
    requires seen <= aged <= at < s.row.value.lockedUntil.value
    ensures var row := Run(config, s, actions).row;
      AfterCheck(config, row, seen, aged, at) == (row, Checked(true, 0))
  {
    LockStands(config, s, actions);
  }

  // A caller that is told it has just locked the row, by its second statement at instant t,
  // has locked it for the whole of the configured time: whatever happened before and however
  // many failures follow, every check that ends before t + lockFor refuses and leaves the row
  // alone, and the first that begins at or after it lifts the lock.
  lemma LockLasts(config: Config, s: State, before: seq<Action>, i: nat, t: int, later: seq<Action>,
                  seen: int, aged: int, at: int)
    requires i < |Run(config, s, before).callers| && Run(config, s, before).callers[i].Added?
    requires Step(config, Run(config, s, before), TryLock(i, t)).callers[i] == Tried(true)
    requires seen <= aged <= at
    ensures var row := Run(config, Step(config, Run(config, s, before), TryLock(i, t)), later).row;
      && row.Some?
      && (at < t + config.lockFor ==> AfterCheck(config, row, seen, aged, at) == (row, Checked(true, 0)))
      && (seen >= t + config.lockFor ==>
            AfterCheck(config, row, seen, aged, at)
              == (Some(Row(0, Normal, None, row.value.lastAttempt)), Checked(false, config.maxAttempts)))
  {
    var s1 := Step(config, Run(config, s, before), TryLock(i, t));
    assert s1.row.Some? && s1.row.value.status.Locked? && s1.row.value.lockedUntil == Some(t + config.lockFor);
    hide Run;
    LockStands(config, s1, later);
    if at < t + config.lockFor {
      LockedRowRefuses(config, s1, later, seen, aged, at);
    }
  }
}
