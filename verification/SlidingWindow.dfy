// The in-process limiter of src/services/rate_limiter.rs for one (client, endpoint) pair:
// timestamps of the requests let through, and the end of a block. Time is an integer
// number of nanoseconds of the monotone clock; one check reads it up to three times.
module SlidingWindow {
  import opened Base
  import opened RateRules

  datatype Record = Record(timestamps: seq<int>, blockedUntil: Option<int>)

  const NEW := Record([], None)

  // `seen` is read for the block, `cutAt` for the cutoff, `at` for the new timestamp or the block.
  datatype Event =
    | Check(seen: int, cutAt: int, at: int)
    | Cleanup(now: int)

  function After(timestamps: seq<int>, cutoff: int): (r: seq<int>) {
    if timestamps == [] then []
    else if timestamps[0] > cutoff then [timestamps[0]] + After(timestamps[1..], cutoff)
    else After(timestamps[1..], cutoff)
  }

  // How many of the times lie after the cutoff.
  ghost function CountAfter(times: seq<int>, cutoff: int): (n: nat) {
    |set i | 0 <= i < |times| && times[i] > cutoff|
  }

  predicate Blocked(record: Record, now: int) {
    record.blockedUntil.Some? && now < record.blockedUntil.value
  }

  function Checked(rule: Rule, record: Record, seen: int, cutAt: int, at: int): (r: (Record, Decision)) {
    if Blocked(record, seen) then (record, StillBlocked)
    else
      var recent := After(record.timestamps, cutAt - rule.window);
      if |recent| >= rule.maxRequests then (Record(recent, Some(at + rule.block)), JustBlocked)
      else (record.(timestamps := recent + [at]), Allowed)
  }

  // Records that neither block nor saw a request within the hour are dropped.
  predicate Kept(record: Record, now: int) {
    Blocked(record, now)
    || (record.timestamps != [] && now - record.timestamps[|record.timestamps| - 1] < HOUR)
  }

  // The record after a run, the answers given and the times of the requests let through.
  datatype Trace = Trace(record: Option<Record>, answers: seq<Decision>, passes: seq<int>)

  function Step(rule: Rule, trace: Trace, e: Event): (r: Trace) {
    match e
    case Check(seen, cutAt, at) =>
      var (record, decision) := Checked(rule, if trace.record.Some? then trace.record.value else NEW, seen, cutAt, at);
      Trace(Some(record), trace.answers + [decision], if decision.Allowed? then trace.passes + [at] else trace.passes)
    case Cleanup(now) =>
      if trace.record.Some? && Kept(trace.record.value, now) then trace else trace.(record := None)
  }

  function Run(rule: Rule, events: seq<Event>): (r: Trace) {
    if events == [] then Trace(None, [], [])
    else Step(rule, Run(rule, events[..|events| - 1]), events[|events| - 1])
  }

  function Began(e: Event): (r: int) {
    match e case Check(seen, _, _) => seen case Cleanup(now) => now
  }

  function Ended(e: Event): (r: int) {
    match e case Check(_, _, at) => at case Cleanup(now) => now
  }

  // One event after another on one clock: the lock is held during each.
  predicate Clocked(events: seq<Event>) {
    && (forall i | 0 <= i < |events| :: events[i].Check? ==> events[i].seen <= events[i].cutAt <= events[i].at)
    && (forall i | 0 <= i < |events| - 1 :: Ended(events[i]) <= Began(events[i + 1]))
  }

  // Before the first event the clock may show anything earlier.
  function Clock(events: seq<Event>): (r: int)
    requires events != []
  {
    Ended(events[|events| - 1])
  }

  // ---------------------------------------------------------------------------
  // The bound.

  // What is not remembered is at least a window old; requests `maxRequests` apart are at
  // least a window apart.
  ghost predicate Tracks(rule: Rule, trace: Trace, clock: int) {
    && Sorted(trace.passes)
    && (forall i | 0 <= i < |trace.passes| :: trace.passes[i] <= clock)
    && RemembersRecent(rule, trace.record, trace.passes, clock)
    && Spaced(rule, trace.passes)
  }

  ghost predicate Sorted(times: seq<int>) {
    forall i, j | 0 <= i < j < |times| :: times[i] <= times[j]
  }

  ghost predicate RemembersRecent(rule: Rule, record: Option<Record>, passes: seq<int>, clock: int) {
    var known := if record.Some? then record.value.timestamps else [];
    && |known| <= |passes|
    && known == passes[|passes| - |known|..]
    && forall i | 0 <= i < |passes| - |known| :: passes[i] <= clock - rule.window
  }

  ghost predicate Spaced(rule: Rule, passes: seq<int>) {
    forall i, j | 0 <= i < j < |passes| && j - i >= rule.maxRequests :: passes[j] - passes[i] >= rule.window
  }

  // Of a sorted sequence a cutoff leaves the end.
  lemma {:induction false} AfterIsSuffix(times: seq<int>, cutoff: int)
    requires Sorted(times)
    ensures var r := After(times, cutoff);
      && |r| <= |times| && r == times[|times| - |r|..]
      && (forall i | 0 <= i < |times| - |r| :: times[i] <= cutoff)
      && (forall i | |times| - |r| <= i < |times| :: times[i] > cutoff)
  {
    if times != [] {
      AfterIsSuffix(times[1..], cutoff);
      var rest := After(times[1..], cutoff);
      if times[0] > cutoff {
        assert |times| > 1 ==> times[1..][0] >= times[0];
        assert [times[0]] + times[1..] == times;
      } else {
        forall i | 0 <= i < |times| - |rest| ensures times[i] <= cutoff {
          assert i > 0 ==> times[i] == times[1..][i - 1];
        }
        forall i | |times| - |rest| <= i < |times| ensures times[i] > cutoff {
          assert times[i] == times[1..][i - 1];
        }
      }
    }
  }

  lemma SuffixSorted(passes: seq<int>, known: seq<int>)
    requires Sorted(passes) && |known| <= |passes| && known == passes[|passes| - |known|..]
    ensures Sorted(known)
  {
    forall i, j | 0 <= i < j < |known| ensures known[i] <= known[j] {
      assert known[i] == passes[|passes| - |known| + i] && known[j] == passes[|passes| - |known| + j];
    }
  }

  lemma EndOfEnd(passes: seq<int>, known: seq<int>, recent: seq<int>)
    requires |recent| <= |known| <= |passes|
    requires known == passes[|passes| - |known|..] && recent == known[|known| - |recent|..]
    ensures recent == passes[|passes| - |recent|..]
  {
  }

  lemma CutOfEnd(passes: seq<int>, known: seq<int>, early: int, late: int)
    requires Sorted(passes) && |known| <= |passes| && known == passes[|passes| - |known|..] && early <= late
    requires forall i | 0 <= i < |passes| - |known| :: passes[i] <= early
    ensures var recent := After(known, late);
      && |recent| <= |passes| && recent == passes[|passes| - |recent|..]
      && forall i | 0 <= i < |passes| - |recent| :: passes[i] <= late
  {
    SuffixSorted(passes, known);
    AfterIsSuffix(known, late);
    hide After, Sorted;
    EndOfEnd(passes, known, After(known, late));
    OldAtBothEnds(passes, known, After(known, late), early, late);
  }

  // Cutting what is remembered leaves the end of the history, and forgets only old times.
  lemma CutRemembers(rule: Rule, record: Option<Record>, passes: seq<int>, clock: int, cutAt: int)
    requires Sorted(passes) && RemembersRecent(rule, record, passes, clock) && clock <= cutAt
    ensures var known := if record.Some? then record.value.timestamps else [];
      var recent := After(known, cutAt - rule.window);
      && |recent| <= |passes| && recent == passes[|passes| - |recent|..]
      && (forall i | 0 <= i < |passes| - |recent| :: passes[i] <= cutAt - rule.window)
  {
    hide After, Sorted;
    CutOfEnd(passes, if record.Some? then record.value.timestamps else [], clock - rule.window, cutAt - rule.window);
  }

  lemma OldAtBothEnds(passes: seq<int>, known: seq<int>, recent: seq<int>, early: int, late: int)
    requires |recent| <= |known| <= |passes| && known == passes[|passes| - |known|..] && early <= late
    requires forall i | 0 <= i < |passes| - |known| :: passes[i] <= early
    requires forall i | 0 <= i < |known| - |recent| :: known[i] <= late
    ensures forall i | 0 <= i < |passes| - |recent| :: passes[i] <= late
  {
    var gone := |passes| - |known|;
    forall i | gone <= i < |passes| - |recent| ensures passes[i] <= late {
      assert passes[i] == known[i - gone];
    }
  }

  lemma SpacedExtends(rule: Rule, passes: seq<int>, recent: nat, cutAt: int, at: int)
    requires Spaced(rule, passes) && recent <= |passes| && recent < rule.maxRequests && cutAt <= at
    requires forall i | 0 <= i < |passes| - recent :: passes[i] <= cutAt - rule.window
    ensures Spaced(rule, passes + [at])
  {
    var passes' := passes + [at];
    forall i, j | 0 <= i < j < |passes'| && j - i >= rule.maxRequests
      ensures passes'[j] - passes'[i] >= rule.window
    {
      assert passes'[i] == passes[i];
    }
  }

  // A record that holds the end of the history, and lacks only old times.
  ghost predicate EndsWith(rule: Rule, passes: seq<int>, recent: seq<int>, cutAt: int) {
    && |recent| <= |passes| && recent == passes[|passes| - |recent|..]
    && forall i | 0 <= i < |passes| - |recent| :: passes[i] <= cutAt - rule.window
  }

  ghost predicate GoodHistory(rule: Rule, passes: seq<int>, clock: int) {
    Sorted(passes) && Spaced(rule, passes) && forall i | 0 <= i < |passes| :: passes[i] <= clock
  }

  lemma EndTracks(rule: Rule, record: Record, answers: seq<Decision>, passes: seq<int>, cutAt: int, at: int)
    requires GoodHistory(rule, passes, at) && EndsWith(rule, passes, record.timestamps, cutAt) && cutAt <= at
    ensures Tracks(rule, Trace(Some(record), answers, passes), at)
  {
    hide Sorted, Spaced;
  }

  // One more request is let through.
  lemma PassTracks(rule: Rule, record: Record, answers: seq<Decision>, passes: seq<int>, cutAt: int, at: int)
    requires GoodHistory(rule, passes, at) && EndsWith(rule, passes, record.timestamps, cutAt) && cutAt <= at
    requires |record.timestamps| < rule.maxRequests
    ensures Tracks(rule, Trace(Some(record.(timestamps := record.timestamps + [at])), answers, passes + [at]), at)
  {
    var recent := record.timestamps;
    SpacedExtends(rule, passes, |recent|, cutAt, at);
    SortedExtends(passes, at);
    hide Sorted, Spaced;
    assert (passes + [at])[|passes| - |recent|..] == recent + [at];
  }

  lemma SortedExtends(passes: seq<int>, at: int)
    requires Sorted(passes) && forall i | 0 <= i < |passes| :: passes[i] <= at
    ensures Sorted(passes + [at])
  {
  }

  lemma TracksGives(rule: Rule, trace: Trace, clock: int, cutAt: int, at: int)
    requires Tracks(rule, trace, clock) && clock <= cutAt <= at
    ensures GoodHistory(rule, trace.passes, at)
    ensures var known := if trace.record.Some? then trace.record.value.timestamps else [];
      EndsWith(rule, trace.passes, known, clock)
      && EndsWith(rule, trace.passes, After(known, cutAt - rule.window), cutAt)
  {
    CutRemembers(rule, trace.record, trace.passes, clock, cutAt);
    hide After, Sorted, Spaced;
  }

  lemma CheckKeepsTracks(rule: Rule, trace: Trace, clock: int, seen: int, cutAt: int, at: int)
    requires Tracks(rule, trace, clock) && clock <= seen <= cutAt <= at
    ensures Tracks(rule, Step(rule, trace, Check(seen, cutAt, at)), at)
  {
    hide After, GoodHistory, EndsWith, Tracks;
    var record := if trace.record.Some? then trace.record.value else NEW;
    TracksGives(rule, trace, clock, cutAt, at);
    var recent := After(record.timestamps, cutAt - rule.window);
    if Blocked(record, seen) {
      EndTracks(rule, record, trace.answers + [StillBlocked], trace.passes, clock, at);
    } else if |recent| >= rule.maxRequests {
      EndTracks(rule, Record(recent, Some(at + rule.block)), trace.answers + [JustBlocked], trace.passes, cutAt, at);
    } else {
      PassTracks(rule, record.(timestamps := recent), trace.answers + [Allowed], trace.passes, cutAt, at);
    }
  }

  lemma LastIsOld(rule: Rule, passes: seq<int>, known: seq<int>, clock: int, now: int)
    requires Sorted(passes) && |known| <= |passes| && known == passes[|passes| - |known|..] && clock <= now
    requires forall i | 0 <= i < |passes| - |known| :: passes[i] <= clock - rule.window
    requires known != [] ==> known[|known| - 1] <= now - rule.window
    ensures forall i | 0 <= i < |passes| :: passes[i] <= now - rule.window
  {
    if known != [] {
      assert passes[|passes| - 1] == known[|known| - 1];
    }
  }

  lemma CleanupKeepsTracks(rule: Rule, trace: Trace, clock: int, now: int)
    requires Tracks(rule, trace, clock) && clock <= now && rule.window <= HOUR
    ensures Tracks(rule, Step(rule, trace, Cleanup(now)), now)
  {
    hide Sorted, Spaced;
    if trace.record.Some? && !Kept(trace.record.value, now) {
      LastIsOld(rule, trace.passes, trace.record.value.timestamps, clock, now);
    }
  }

  lemma {:induction false} RunTracks(rule: Rule, events: seq<Event>)
    requires Clocked(events) && events != [] && rule.window <= HOUR
    ensures Tracks(rule, Run(rule, events), Clock(events))
  {
    hide Step, Tracks;
    var before, last := events[..|events| - 1], events[|events| - 1];
    if before == [] {
      StartTracks(rule, Began(last));
    } else {
      RunTracks(rule, before);
      assert Ended(events[|events| - 2]) <= Began(events[|events| - 2 + 1]);
    }
    var clock := if before == [] then Began(last) else Clock(before);
    match last
    case Check(seen, cutAt, at) => CheckKeepsTracks(rule, Run(rule, before), clock, seen, cutAt, at);
    case Cleanup(now) => CleanupKeepsTracks(rule, Run(rule, before), clock, now);
  }

  lemma StartTracks(rule: Rule, clock: int)
    ensures Tracks(rule, Trace(None, [], []), clock)
  {
  }

  // How many of the requests let through fall into [from, from + window).
  ghost function Within(times: seq<int>, from: int, window: nat): (r: set<nat>) {
    set i: nat | i < |times| && from <= times[i] < from + window
  }

  lemma CloseInTime(rule: Rule, passes: seq<int>, i: nat, j: nat)
    requires Spaced(rule, passes) && i <= j < |passes| && rule.maxRequests > 0
    requires passes[j] - passes[i] < rule.window
    ensures j - i < rule.maxRequests
  {
  }

  lemma SpacedIsBounded(rule: Rule, passes: seq<int>, from: int)
    requires Spaced(rule, passes) && (rule.maxRequests > 0 || passes == [])
    ensures |Within(passes, from, rule.window)| <= rule.maxRequests
  {
    var indices := Within(passes, from, rule.window);
    if indices != {} {
      var low := Least(indices);
      forall i | i in indices ensures low <= i < low + rule.maxRequests {
        CloseInTime(rule, passes, low, i);
      }
      RangeIsSmall(indices, low, rule.maxRequests);
    }
  }

  lemma {:induction false} Least(s: set<nat>) returns (low: nat)
    requires s != {}
    ensures low in s && forall i | i in s :: low <= i
  {
    low :| low in s;
    if s - {low} == {} {
      assert s == {low};
    } else {
      var other := Least(s - {low});
      assert forall i | i in s && i != low :: i in s - {low};
      if other < low {
        low := other;
      }
    }
  }

  lemma {:induction false} RangeIsSmall(s: set<nat>, low: nat, n: nat)
    requires forall i | i in s :: low <= i < low + n
    ensures |s| <= n
  {
    if n == 0 {
      assert s == {};
    } else {
      RangeIsSmall(s - {low + n - 1}, low, n - 1);
    }
  }

  // ---------------------------------------------------------------------------
  // When it holds: exactly for windows of at most an hour, the idle time after which
  // cleanup forgets a client (or when nothing is ever let through).

  // All requests at time 0, a cleanup an hour later, one more request.
  function Burst(n: nat): (r: seq<Event>) {
    seq(n, _ => Check(0, 0, 0))
  }

  lemma BurstStep(rule: Rule, answers: seq<Decision>, n: nat)
    requires n < rule.maxRequests && rule.window > 0
    ensures Step(rule, Trace(Some(Record(Zeros(n), None)), answers, Zeros(n)), Check(0, 0, 0))
      == Trace(Some(Record(Zeros(n + 1), None)), answers + [Allowed], Zeros(n + 1))
  {
    AfterZeros(n, 0 - rule.window);
    assert Zeros(n + 1) == Zeros(n) + [0];
    hide After;
  }

  lemma FirstOfBurst(rule: Rule)
    requires rule.maxRequests > 0 && rule.window > 0
    ensures Run(rule, Burst(1)) == Trace(Some(Record(Zeros(1), None)), [Allowed], Zeros(1))
  {
    AfterZeros(0, 0 - rule.window);
    assert Zeros(0) == [] && [] + [0] == Zeros(1);
    assert Burst(1)[..0] == [] && Burst(1)[0] == Check(0, 0, 0);
    var none: seq<Decision> := [];
    assert none + [Allowed] == [Allowed];
  }

  lemma {:induction false} BurstPasses(rule: Rule, n: nat)
    requires n <= rule.maxRequests && rule.window > 0 && n > 0
    ensures var t := Run(rule, Burst(n));
      t.record == Some(Record(Zeros(n), None)) && t.passes == Zeros(n) && |t.answers| == n
  {
    hide Step;
    if n == 1 {
      FirstOfBurst(rule);
    } else {
      BurstPasses(rule, n - 1);
      assert Burst(n)[..n - 1] == Burst(n - 1);
      BurstStep(rule, Run(rule, Burst(n - 1)).answers, n - 1);
    }
  }

  lemma AfterZeros(n: nat, cutoff: int)
    requires cutoff < 0
    ensures After(Zeros(n), cutoff) == Zeros(n)
  {
    AfterIsSuffix(Zeros(n), cutoff);
  }

  function Zeros(n: nat): (r: seq<int>) {
    seq(n, _ => 0)
  }

  // One request too many, and it is there because of the cleanup.
  lemma LongWindowLeaks(rule: Rule)
    requires rule.window > HOUR && rule.maxRequests > 0
    ensures var events := Burst(rule.maxRequests) + [Cleanup(HOUR)] + [Check(HOUR, HOUR, HOUR)];
      && Clocked(events)
      && Run(rule, events).passes == Zeros(rule.maxRequests) + [HOUR]
      && |Within(Run(rule, events).passes, 0, rule.window)| == rule.maxRequests + 1
      && Run(rule, events).answers != Run(rule, WithoutCleanup(events)).answers
  {
    hide WithoutCleanup;
    var n := rule.maxRequests;
    var swept := Burst(n) + [Cleanup(HOUR)];
    var events := swept + [Check(HOUR, HOUR, HOUR)];
    BurstPasses(rule, n);
    assert swept[..n] == Burst(n) && events[..n + 1] == swept;
    assert Run(rule, swept).record == None;
    AllWithin(n, rule.window);
    BurstThenCheck(rule);
    assert Run(rule, events).answers == Run(rule, swept).answers + [Allowed];
    assert Run(rule, events).answers[n] == Allowed;
  }

  lemma AllWithin(n: nat, window: nat)
    requires window > HOUR
    ensures |Within(Zeros(n) + [HOUR], 0, window)| == n + 1
  {
    var times := Zeros(n) + [HOUR];
    assert Within(times, 0, window) == Below(n + 1);
  }

  function Below(n: nat): (s: set<nat>)
    ensures |s| == n
    ensures forall i: nat :: i in s <==> i < n
  {
    if n == 0 then {} else Below(n - 1) + {n - 1}
  }

  // Without the cleanup the last request is refused.
  lemma BurstThenCheck(rule: Rule)
    requires rule.window > HOUR && rule.maxRequests > 0
    ensures var events := Burst(rule.maxRequests) + [Cleanup(HOUR)] + [Check(HOUR, HOUR, HOUR)];
      var answers := Run(rule, WithoutCleanup(events)).answers;
      |answers| == rule.maxRequests + 1 && answers[rule.maxRequests] == JustBlocked
  {
    var n := rule.maxRequests;
    var kept := Burst(n) + [Check(HOUR, HOUR, HOUR)];
    WithoutCleanupOfBurst(n);
    BurstPasses(rule, n);
    assert kept[..n] == Burst(n);
    AfterZeros(n, HOUR - rule.window);
  }

  lemma WithoutCleanupOfBurst(n: nat)
    ensures WithoutCleanup(Burst(n) + [Cleanup(HOUR)] + [Check(HOUR, HOUR, HOUR)])
      == Burst(n) + [Check(HOUR, HOUR, HOUR)]
  {
    var swept := Burst(n) + [Cleanup(HOUR)];
    var events := swept + [Check(HOUR, HOUR, HOUR)];
    assert events[..n + 1] == swept && swept[..n] == Burst(n);
    ChecksOnly(Burst(n));
  }

  lemma {:induction false} ChecksOnly(events: seq<Event>)
    requires forall i | 0 <= i < |events| :: events[i].Check?
    ensures WithoutCleanup(events) == events
  {
    if events != [] {
      ChecksOnly(events[..|events| - 1]);
    }
  }

  lemma {:induction false} NothingPasses(rule: Rule, events: seq<Event>)
    requires rule.maxRequests == 0
    ensures Run(rule, events).passes == []
  {
    if events != [] {
      NothingPasses(rule, events[..|events| - 1]);
    }
  }

  ghost predicate AlwaysBounded(rule: Rule) {
    forall events, from | Clocked(events) :: |Within(Run(rule, events).passes, from, rule.window)| <= rule.maxRequests
  }

  lemma BoundedIffShortWindow(rule: Rule)
    ensures AlwaysBounded(rule) <==> rule.window <= 3600 * 1_000_000_000 || rule.maxRequests == 0
  {
    hide Run, Clocked;
    if rule.window > HOUR && rule.maxRequests > 0 {
      LongWindowLeaks(rule);
    } else {
      forall events, from | Clocked(events)
        ensures |Within(Run(rule, events).passes, from, rule.window)| <= rule.maxRequests
      {
        if rule.maxRequests == 0 {
          NothingPasses(rule, events);
        } else if events != [] {
          RunTracks(rule, events);
        } else {
          EmptyRun(rule);
        }
        SpacedIsBounded(rule, Run(rule, events).passes, from);
      }
    }
  }

  lemma EmptyRun(rule: Rule)
    ensures Run(rule, []).passes == []
  {
  }

  // ---------------------------------------------------------------------------
  // Cleanup is invisible, for the same windows.

  function WithoutCleanup(events: seq<Event>): (r: seq<Event>) {
    if events == [] then []
    else
      var rest := WithoutCleanup(events[..|events| - 1]);
      if events[|events| - 1].Check? then rest + [events[|events| - 1]] else rest
  }

  // What a record still means at some moment: its recent timestamps and its block, if any.
  function Meaning(rule: Rule, record: Option<Record>, now: int): (r: Record) {
    if record.None? then NEW
    else
      Record(After(record.value.timestamps, now - rule.window),
             if Blocked(record.value, now) then record.value.blockedUntil else None)
  }

  lemma {:induction false} AfterAfter(times: seq<int>, early: int, late: int)
    requires early <= late
    ensures After(After(times, early), late) == After(times, late)
  {
    if times != [] {
      AfterAfter(times[1..], early, late);
      if times[0] > early {
        assert ([times[0]] + After(times[1..], early))[1..] == After(times[1..], early);
      }
    }
  }

  lemma {:induction false} AfterAppend(times: seq<int>, cutoff: int, t: int)
    ensures After(times + [t], cutoff) == After(times, cutoff) + if t > cutoff then [t] else []
  {
    if times == [] {
      assert ([] + [t])[1..] == [];
    } else {
      assert (times + [t])[1..] == times[1..] + [t];
      AfterAppend(times[1..], cutoff, t);
    }
  }

  // A later meaning is the meaning of an earlier one.
  lemma {:induction false} AfterIsCounted(times: seq<int>, cutoff: int)
    ensures |After(times, cutoff)| == CountAfter(times, cutoff)
  {
    var late := set i | 0 <= i < |times| && times[i] > cutoff;
    if times == [] {
      assert late == {};
    } else {
      var n := |times| - 1;
      var front := times[..n];
      AfterIsCounted(front, cutoff);
      assert times == front + [times[n]];
      AfterAppend(front, cutoff, times[n]);
      var early := set i | 0 <= i < |front| && front[i] > cutoff;
      assert late == early + if times[n] > cutoff then {n} else {};
    }
  }

  // Through goes exactly what finds no block and fewer times remembered within the window than
  // the rule allows; a block lasts as long as the rule says.
  ghost predicate ByTheRule(rule: Rule, before: Record, after: Record, decision: Decision, seen: int, cutAt: int,
                            at: int) {
    var blocked := before.blockedUntil.Some? && seen < before.blockedUntil.value;
    && (decision.StillBlocked? <==> blocked)
    && (decision.Allowed? <==> !blocked && CountAfter(before.timestamps, cutAt - rule.window) < rule.maxRequests)
    && after.blockedUntil == (if decision.JustBlocked? then Some(at + rule.block) else before.blockedUntil)
    && (decision.Allowed? ==> after.timestamps != [] && after.timestamps[|after.timestamps| - 1] == at)
  }

  lemma CheckedByTheRule(rule: Rule, record: Record, seen: int, cutAt: int, at: int)
    ensures var (after, decision) := Checked(rule, record, seen, cutAt, at);
      ByTheRule(rule, record, after, decision, seen, cutAt, at)
  {
    AfterIsCounted(record.timestamps, cutAt - rule.window);
    hide After, CountAfter;
  }

  lemma MeaningFades(rule: Rule, record: Option<Record>, early: int, late: int)
    requires early <= late
    ensures Meaning(rule, record, late) == Meaning(rule, Some(Meaning(rule, record, early)), late)
  {
    hide After;
    if record.Some? {
      AfterAfter(record.value.timestamps, early - rule.window, late - rule.window);
    } else {
      AfterNothing(late - rule.window);
    }
  }

  lemma AfterNothing(cutoff: int)
    ensures After([], cutoff) == []
  {
  }

  // A check answers by the meaning of the record, and leaves a record that only depends on it.
  lemma CheckByMeaning(rule: Rule, a: Option<Record>, b: Option<Record>, clock: int, seen: int, cutAt: int, at: int)
    requires Meaning(rule, a, clock) == Meaning(rule, b, clock) && clock <= seen <= cutAt <= at
    ensures var (ra, da) := Checked(rule, if a.Some? then a.value else NEW, seen, cutAt, at);
      var (rb, db) := Checked(rule, if b.Some? then b.value else NEW, seen, cutAt, at);
      da == db && Meaning(rule, Some(ra), at) == Meaning(rule, Some(rb), at)
  {
    hide After;
    CheckFromMeaning(rule, a, clock, seen, cutAt, at);
    CheckFromMeaning(rule, b, clock, seen, cutAt, at);
  }

  lemma CheckFromMeaning(rule: Rule, a: Option<Record>, clock: int, seen: int, cutAt: int, at: int)
    requires clock <= seen <= cutAt <= at
    ensures var (ra, da) := Checked(rule, if a.Some? then a.value else NEW, seen, cutAt, at);
      var (rm, dm) := Checked(rule, Meaning(rule, a, clock), seen, cutAt, at);
      da == dm && Meaning(rule, Some(ra), at) == Meaning(rule, Some(rm), at)
  {
    hide After;
    AfterNothing(clock - rule.window);
    AfterNothing(cutAt - rule.window);
    var times := if a.Some? then a.value.timestamps else [];
    AfterAfter(times, clock - rule.window, cutAt - rule.window);
    AfterAfter(times, clock - rule.window, at - rule.window);
  }

  lemma AllOld(times: seq<int>, cutoff: int)
    requires Sorted(times) && times != [] && times[|times| - 1] <= cutoff
    ensures After(times, cutoff) == []
  {
    AfterIsSuffix(times, cutoff);
  }

  // What cleanup drops means nothing any more.
  lemma DroppedMeansNothing(rule: Rule, record: Record, now: int)
    requires rule.window <= HOUR || rule.maxRequests == 0
    requires !Kept(record, now) && Sorted(record.timestamps)
    requires rule.maxRequests == 0 ==> record.timestamps == []
    ensures Meaning(rule, Some(record), now) == NEW
  {
    if record.timestamps != [] {
      AllOld(record.timestamps, now - rule.window);
    }
  }

  ghost predicate Tidy(rule: Rule, record: Option<Record>, clock: int) {
    record.Some? ==>
      && Sorted(record.value.timestamps)
      && (forall i | 0 <= i < |record.value.timestamps| :: record.value.timestamps[i] <= clock)
      && (rule.maxRequests == 0 ==> record.value.timestamps == [])
  }

  lemma CheckKeepsTidy(rule: Rule, record: Option<Record>, clock: int, seen: int, cutAt: int, at: int)
    requires Tidy(rule, record, clock) && clock <= at
    ensures Tidy(rule, Some(Checked(rule, if record.Some? then record.value else NEW, seen, cutAt, at).0), at)
  {
    var times := if record.Some? then record.value.timestamps else [];
    CutKeepsTidy(times, clock, cutAt - rule.window);
    hide After;
  }

  lemma CutKeepsTidy(times: seq<int>, clock: int, cutoff: int)
    requires Sorted(times) && forall i | 0 <= i < |times| :: times[i] <= clock
    ensures var r := After(times, cutoff);
      Sorted(r) && (forall i | 0 <= i < |r| :: r[i] <= clock) && (times == [] ==> r == [])
  {
    AfterIsSuffix(times, cutoff);
    SuffixSorted(times, After(times, cutoff));
  }

  // Run with and without the cleanups: the same answers, and records that mean the same.
  lemma {:induction false} CleanupSimulation(rule: Rule, events: seq<Event>)
    requires Clocked(events) && events != [] && (rule.window <= HOUR || rule.maxRequests == 0)
    ensures var with, without := Run(rule, events), Run(rule, WithoutCleanup(events));
      && with.answers == without.answers
      && Meaning(rule, with.record, Clock(events)) == Meaning(rule, without.record, Clock(events))
      && Tidy(rule, with.record, Clock(events))
  {
    hide Meaning, Tidy, After, Checked, Kept;
    var before, last := events[..|events| - 1], events[|events| - 1];
    var with, without := Run(rule, before), Run(rule, WithoutCleanup(before));
    var clock := if before == [] then Began(last) else Clock(before);
    if before != [] {
      CleanupSimulation(rule, before);
      assert Ended(events[|events| - 2]) <= Began(events[|events| - 2 + 1]);
    } else {
      NothingIsTidy(rule, clock);
    }
    LastStep(rule, events);
    match last
    case Check(seen, cutAt, at) =>
      CheckByMeaning(rule, with.record, without.record, clock, seen, cutAt, at);
      CheckKeepsTidy(rule, with.record, clock, seen, cutAt, at);
    case Cleanup(now) =>
      MeaningFades(rule, with.record, clock, now);
      MeaningFades(rule, without.record, clock, now);
      TidyLater(rule, with.record, clock, now);
      if with.record.Some? && !Kept(with.record.value, now) {
        TidyIsSorted(rule, with.record.value, now);
        DroppedMeansNothing(rule, with.record.value, now);
      }
      NothingMeans(rule, now);
      NothingIsTidy(rule, now);
  }

  lemma NothingIsTidy(rule: Rule, clock: int)
    ensures Tidy(rule, None, clock)
  {
  }

  lemma NothingMeans(rule: Rule, now: int)
    ensures Meaning(rule, None, now) == NEW
  {
  }

  lemma TidyLater(rule: Rule, record: Option<Record>, clock: int, now: int)
    requires Tidy(rule, record, clock) && clock <= now
    ensures Tidy(rule, record, now)
  {
  }

  lemma TidyIsSorted(rule: Rule, record: Record, clock: int)
    requires Tidy(rule, Some(record), clock)
    ensures Sorted(record.timestamps) && (rule.maxRequests == 0 ==> record.timestamps == [])
  {
  }

  lemma LastStep(rule: Rule, events: seq<Event>)
    requires events != []
    ensures var before, last := events[..|events| - 1], events[|events| - 1];
      && Run(rule, events) == Step(rule, Run(rule, before), last)
      && Run(rule, WithoutCleanup(events))
           == if last.Check? then Step(rule, Run(rule, WithoutCleanup(before)), last)
              else Run(rule, WithoutCleanup(before))
  {
    hide Step;
    var before, last := events[..|events| - 1], events[|events| - 1];
    if last.Check? {
      var rest := WithoutCleanup(before);
      assert (rest + [last])[..|rest|] == rest;
    }
  }

  ghost predicate CleanupInvisible(rule: Rule) {
    forall events | Clocked(events) :: Run(rule, events).answers == Run(rule, WithoutCleanup(events)).answers
  }

  lemma InvisibleIffShortWindow(rule: Rule)
    ensures CleanupInvisible(rule) <==> rule.window <= 3600 * 1_000_000_000 || rule.maxRequests == 0
  {
    hide Run, Clocked, WithoutCleanup;
    if rule.window > HOUR && rule.maxRequests > 0 {
      LongWindowLeaks(rule);
    } else {
      forall events | Clocked(events)
        ensures Run(rule, events).answers == Run(rule, WithoutCleanup(events)).answers
      {
        if events != [] {
          CleanupSimulation(rule, events);
        } else {
          NoEvents();
        }
      }
    }
  }

  lemma NoEvents()
    ensures WithoutCleanup([]) == []
  {
  }

  // ---------------------------------------------------------------------------
  // Blocks.

  ghost predicate Blocking(trace: Trace, until: int) {
    trace.record.Some? && trace.record.value.blockedUntil == Some(until)
  }

  // Before its end a block is neither extended nor lifted, by checks or by cleanup.
  lemma BlockStands(rule: Rule, trace: Trace, until: int, e: Event)
    requires Blocking(trace, until) && Began(e) < until
    ensures Blocking(Step(rule, trace, e), until)
    ensures Step(rule, trace, e).passes == trace.passes
    ensures Step(rule, trace, e).answers == trace.answers + if e.Check? then [StillBlocked] else []
  {
    hide After;
  }

  lemma {:induction false} RunStaysBlocked(rule: Rule, before: seq<Event>, later: seq<Event>, until: int)
    requires Blocking(Run(rule, before), until)
    requires forall e | e in later :: Began(e) < until
    ensures Blocking(Run(rule, before + later), until) && Run(rule, before + later).passes == Run(rule, before).passes
  {
    hide Step;
    if later == [] {
      assert before + later == before;
    } else {
      var n := |later| - 1;
      assert forall e | e in later[..n] :: e in later;
      RunStaysBlocked(rule, before, later[..n], until);
      assert later[n] in later;
      BlockStands(rule, Run(rule, before + later[..n]), until, later[n]);
      assert (before + later)[..|before + later| - 1] == before + later[..n];
    }
  }

  // A check that finds the limit reached blocks for the whole of the rule's time: whatever
  // comes before it is over, nothing is let through meanwhile, and the next check is refused
  // as blocked exactly if it sees a time before the end.
  lemma BlockLasts(rule: Rule, before: seq<Event>, e: Event, later: seq<Event>, next: Event)
    requires e.Check? && next.Check?
    requires Run(rule, before + [e]).answers == Run(rule, before).answers + [JustBlocked]
    requires forall x | x in later :: Began(x) < e.at + rule.block
    ensures var t, t' := Run(rule, before + [e] + later), Run(rule, before + [e] + later + [next]);
      && t.passes == Run(rule, before).passes
      && |t'.answers| == |t.answers| + 1
      && (t'.answers[|t.answers|] == StillBlocked <==> next.seen < e.at + rule.block)
  {
    hide Run, After;
    NextStep(rule, before, e);
    BlockBegins(rule, Run(rule, before), e);
    RunStaysBlocked(rule, before + [e], later, e.at + rule.block);
    NextStep(rule, before + [e] + later, next);
  }

  lemma BlockBegins(rule: Rule, trace: Trace, e: Event)
    requires e.Check?
    ensures Step(rule, trace, e).answers == trace.answers + [JustBlocked] ==>
      Blocking(Step(rule, trace, e), e.at + rule.block) && Step(rule, trace, e).passes == trace.passes
  {
    hide After;
    var answers := Step(rule, trace, e).answers;
    if answers == trace.answers + [JustBlocked] {
      assert answers[|trace.answers|] == JustBlocked;
    }
  }

  lemma NextStep(rule: Rule, events: seq<Event>, e: Event)
    ensures Run(rule, events + [e]) == Step(rule, Run(rule, events), e)
  {
    hide Step;
    assert (events + [e])[..|events|] == events;
  }
}
