// The cache of authenticated requests (src/services/auth_cache.rs) against its plain
// history of inserts and invalidations. A token is identified with its digest.
module CacheHistory {
  import opened Base

  const MAX_ENTRIES: nat := 10_000

  type Token = nat

  datatype Entry = Entry(user: string, userId: string, expiresAt: int)

  type Entries = map<Token, Entry>

  // An insert may read the clock to sweep, and reads it for the end of the new entry.
  datatype Event =
    | Insert(token: Token, userId: string, user: string, sweptAt: int, at: int)
    | InvalidateToken(token: Token)
    | InvalidateUser(userId: string)
    | Purge(now: int)
    | Get(token: Token, now: int)

  function Live(entries: Entries, now: int): (r: Entries) {
    map t | t in entries && entries[t].expiresAt > now :: entries[t]
  }

  // A full cache is swept; if that leaves it full it is dropped altogether.
  function MadeRoom(entries: Entries, now: int): (r: Entries) {
    if |entries| < MAX_ENTRIES then entries
    else if |Live(entries, now)| < MAX_ENTRIES then Live(entries, now)
    else map[]
  }

  function Without(entries: Entries, userId: string): (r: Entries) {
    map t | t in entries && entries[t].userId != userId :: entries[t]
  }

  function Found(entries: Entries, token: Token, now: int): (r: Option<string>) {
    if token in entries && entries[token].expiresAt > now then Some(entries[token].user) else None
  }

  datatype Trace = Trace(entries: Entries, answers: seq<Option<string>>)

  function Step(ttl: nat, t: Trace, e: Event): (r: Trace) {
    match e
    case Insert(token, userId, user, sweptAt, at) =>
      t.(entries := MadeRoom(t.entries, sweptAt)[token := Entry(user, userId, at + ttl)])
    case InvalidateToken(token) => t.(entries := t.entries - {token})
    case InvalidateUser(userId) => t.(entries := Without(t.entries, userId))
    case Purge(now) => t.(entries := Live(t.entries, now))
    case Get(token, now) => t.(answers := t.answers + [Found(t.entries, token, now)])
  }

  function Run(ttl: nat, events: seq<Event>): (r: Trace) {
    if events == [] then Trace(map[], [])
    else Step(ttl, Run(ttl, events[..|events| - 1]), events[|events| - 1])
  }

  // ---------------------------------------------------------------------------
  // What the history says of a token.

  predicate Ends(e: Event, token: Token, userId: string) {
    (e.InvalidateToken? && e.token == token) || (e.InvalidateUser? && e.userId == userId)
    || (e.Insert? && e.token == token)
  }

  // The latest insert for the token, unless it was invalidated since.
  function Latest(ttl: nat, events: seq<Event>, token: Token): (r: Option<Entry>) {
    if events == [] then None
    else
      var before, last := Latest(ttl, events[..|events| - 1], token), events[|events| - 1];
      if last.Insert? && last.token == token then Some(Entry(last.user, last.userId, last.at + ttl))
      else if before.Some? && Ends(last, token, before.value.userId) then None
      else before
  }

  // In terms of the events themselves.
  lemma {:induction false} LatestIsAnInsert(ttl: nat, events: seq<Event>, token: Token)
    ensures var latest := Latest(ttl, events, token);
      latest.Some? ==>
        exists i :: 0 <= i < |events| && events[i].Insert? && events[i].token == token
          && latest.value == Entry(events[i].user, events[i].userId, events[i].at + ttl)
          && forall j | i < j < |events| :: !Ends(events[j], token, events[i].userId)
  {
    if events != [] {
      var before, last := events[..|events| - 1], events[|events| - 1];
      LatestIsAnInsert(ttl, before, token);
      if last.Insert? && last.token == token {
        var i := |events| - 1;
        assert events[i] == last;
      } else if Latest(ttl, events, token).Some? {
        var i :| 0 <= i < |before| && before[i].Insert? && before[i].token == token
          && Latest(ttl, before, token).value == Entry(before[i].user, before[i].userId, before[i].at + ttl)
          && forall j | i < j < |before| :: !Ends(before[j], token, before[i].userId);
        assert events[i] == before[i];
        forall j | i < j < |events| ensures !Ends(events[j], token, events[i].userId) {
          assert j < |before| ==> events[j] == before[j];
        }
      }
    }
  }

  // Nothing is cached that the history does not say.
  lemma {:induction false} CachedIsLatest(ttl: nat, events: seq<Event>, token: Token)
    requires token in Run(ttl, events).entries
    ensures Latest(ttl, events, token) == Some(Run(ttl, events).entries[token])
  {
    var before, last := events[..|events| - 1], events[|events| - 1];
    if !(last.Insert? && last.token == token) {
      assert token in Run(ttl, before).entries;
      CachedIsLatest(ttl, before, token);
    }
  }

  // A hit gives the user of the latest insert for the token, made less than one lifetime
  // ago, with no invalidation of the token or of its user since.
  lemma HitIsRecentAndValid(ttl: nat, events: seq<Event>, token: Token, now: int)
    requires Found(Run(ttl, events).entries, token, now).Some?
    ensures exists i ::
      && 0 <= i < |events| && events[i].Insert? && events[i].token == token
      && Found(Run(ttl, events).entries, token, now) == Some(events[i].user)
      && now - events[i].at < ttl
      && forall j | i < j < |events| :: !Ends(events[j], token, events[i].userId)
  {
    CachedIsLatest(ttl, events, token);
    LatestIsAnInsert(ttl, events, token);
    hide Run, Latest, Ends;
    var i :| 0 <= i < |events| && events[i].Insert? && events[i].token == token
      && Latest(ttl, events, token).value == Entry(events[i].user, events[i].userId, events[i].at + ttl)
      && forall j | i < j < |events| :: !Ends(events[j], token, events[i].userId);
  }

  // ---------------------------------------------------------------------------
  // Size.

  lemma {:induction false} FewerKeys(a: set<Token>, b: set<Token>)
    requires a <= b
    ensures |a| <= |b|
  {
    if a != {} {
      var x :| x in a;
      FewerKeys(a - {x}, b - {x});
    }
  }

  lemma {:induction false} NeverOverfull(ttl: nat, events: seq<Event>)
    ensures |Run(ttl, events).entries| <= 10_000
  {
    hide MadeRoom, Live, Without;
    if events != [] {
      var before, last := Run(ttl, events[..|events| - 1]).entries, events[|events| - 1];
      NeverOverfull(ttl, events[..|events| - 1]);
      match last
      case Insert(token, userId, user, sweptAt, at) =>
        RoomForOne(before, sweptAt);
        var room := MadeRoom(before, sweptAt);
        var after := room[token := Entry(user, userId, at + ttl)];
        assert after.Keys == room.Keys + {token};
      case InvalidateToken(token) => FewerKeys((before - {token}).Keys, before.Keys);
      case InvalidateUser(userId) => WithoutIsSmaller(before, userId);
      case Purge(now) => LiveIsSmaller(before, now);
      case Get(_, _) =>
    }
  }

  lemma RoomForOne(entries: Entries, now: int)
    ensures |MadeRoom(entries, now)| < MAX_ENTRIES
  {
    hide Live;
  }

  lemma LiveIsSmaller(entries: Entries, now: int)
    ensures |Live(entries, now)| <= |entries|
  {
    FewerKeys(Live(entries, now).Keys, entries.Keys);
  }

  lemma WithoutIsSmaller(entries: Entries, userId: string)
    ensures |Without(entries, userId)| <= |entries|
  {
    FewerKeys(Without(entries, userId).Keys, entries.Keys);
  }

  // ---------------------------------------------------------------------------
  // Purging.

  function Began(e: Event, clock: int): (r: int) {
    match e
    case Insert(_, _, _, sweptAt, _) => sweptAt
    case Get(_, now) => now
    case _ => clock
  }

  function Ended(e: Event, clock: int): (r: int) {
    match e
    case Insert(_, _, _, _, at) => at
    case Purge(now) => if now > clock then now else clock
    case Get(_, now) => now
    case _ => clock
  }

  // The clock after some events; it never goes back. A purge reads it before it waits for
  // the lock, so its reading may be older than the events before it.
  function Clock(start: int, events: seq<Event>): (r: int) {
    if events == [] then start else Ended(events[|events| - 1], Clock(start, events[..|events| - 1]))
  }

  predicate Clocked(start: int, events: seq<Event>) {
    events != [] ==>
      var before, last := events[..|events| - 1], events[|events| - 1];
      var clock := Clock(start, before);
      Clocked(start, before) && clock <= Began(last, clock) <= Ended(last, clock)
  }

  function WithoutPurge(events: seq<Event>): (r: seq<Event>) {
    if events == [] then []
    else
      var rest := WithoutPurge(events[..|events| - 1]);
      if events[|events| - 1].Purge? then rest else rest + [events[|events| - 1]]
  }

  lemma LiveLater(entries: Entries, early: int, late: int)
    requires early <= late
    ensures Live(Live(entries, early), late) == Live(entries, late)
  {
  }

  lemma LiveInsert(a: Entries, b: Entries, token: Token, entry: Entry, now: int)
    requires Live(a, now) == Live(b, now)
    ensures Live(a[token := entry], now) == Live(b[token := entry], now)
  {
    forall t ensures (t in a && a[t].expiresAt > now) == (t in b && b[t].expiresAt > now) {
      assert t in Live(a, now) <==> t in Live(b, now);
    }
    forall t | t in a && a[t].expiresAt > now ensures t in b && b[t] == a[t] {
      assert Live(a, now)[t] == Live(b, now)[t];
    }
  }

  lemma LiveRemove(a: Entries, b: Entries, token: Token, now: int)
    requires Live(a, now) == Live(b, now)
    ensures Live(a - {token}, now) == Live(b - {token}, now)
  {
    assert Live(a - {token}, now) == Live(a, now) - {token};
    assert Live(b - {token}, now) == Live(b, now) - {token};
  }

  lemma LiveWithout(a: Entries, b: Entries, userId: string, now: int)
    requires Live(a, now) == Live(b, now)
    ensures Live(Without(a, userId), now) == Live(Without(b, userId), now)
  {
    assert Live(Without(a, userId), now) == Without(Live(a, now), userId);
    assert Live(Without(b, userId), now) == Without(Live(b, now), userId);
  }

  // Making room treats caches with the same live entries alike: it drops everything exactly
  // when the live entries alone are too many.
  lemma LiveMadeRoom(a: Entries, now: int, late: int)
    requires now <= late
    ensures Live(MadeRoom(a, now), late) == if |Live(a, now)| < MAX_ENTRIES then Live(a, late) else map[]
  {
    LiveIsSmaller(a, now);
    LiveLater(a, now, late);
    EmptyLive(late);
    hide Live;
  }

  lemma EmptyLive(now: int)
    ensures Live(map[], now) == map[]
  {
  }

  lemma SameAnswer(a: Entries, b: Entries, token: Token, now: int)
    requires Live(a, now) == Live(b, now)
    ensures Found(a, token, now) == Found(b, token, now)
  {
    assert Found(a, token, now) == if token in Live(a, now) then Some(Live(a, now)[token].user) else None;
    assert Found(b, token, now) == if token in Live(b, now) then Some(Live(b, now)[token].user) else None;
  }

  // The same live entries and the same answers, before and after.
  lemma SameStep(ttl: nat, a: Trace, b: Trace, e: Event, clock: int)
    requires Live(a.entries, clock) == Live(b.entries, clock) && a.answers == b.answers && !e.Purge?
    requires clock <= Began(e, clock) <= Ended(e, clock)
    ensures var a', b' := Step(ttl, a, e), Step(ttl, b, e);
      Live(a'.entries, Ended(e, clock)) == Live(b'.entries, Ended(e, clock)) && a'.answers == b'.answers
  {
    hide Live, Without, MadeRoom, Found;
    LiveLater(a.entries, clock, Began(e, clock));
    LiveLater(b.entries, clock, Began(e, clock));
    match e
    case Insert(token, userId, user, sweptAt, at) =>
      LiveLater(a.entries, clock, at);
      LiveLater(b.entries, clock, at);
      LiveMadeRoom(a.entries, sweptAt, at);
      LiveMadeRoom(b.entries, sweptAt, at);
      LiveInsert(MadeRoom(a.entries, sweptAt), MadeRoom(b.entries, sweptAt), token, Entry(user, userId, at + ttl), at);
    case InvalidateToken(token) => LiveRemove(a.entries, b.entries, token, clock);
    case InvalidateUser(userId) => LiveWithout(a.entries, b.entries, userId, clock);
    case Get(token, now) => SameAnswer(a.entries, b.entries, token, now);
    case Purge(_) => assert false;
  }

  lemma {:induction false} PurgeSimulation(ttl: nat, start: int, events: seq<Event>)
    requires Clocked(start, events)
    ensures var with, without := Run(ttl, events), Run(ttl, WithoutPurge(events));
      && Live(with.entries, Clock(start, events)) == Live(without.entries, Clock(start, events))
      && with.answers == without.answers
  {
    hide Step, Live;
    if events != [] {
      var before, last := events[..|events| - 1], events[|events| - 1];
      var clock := Clock(start, before);
      PurgeSimulation(ttl, start, before);
      LastStep(ttl, events);
      var with, without := Run(ttl, before), Run(ttl, WithoutPurge(before));
      if last.Purge? {
        var after := Ended(last, clock);
        PurgeIs(ttl, with, last.now);
        LiveLater(with.entries, clock, after);
        LiveLater(without.entries, clock, after);
        LiveLater(with.entries, last.now, after);
      } else {
        SameStep(ttl, with, without, last, clock);
      }
    }
  }

  lemma PurgeIs(ttl: nat, t: Trace, now: int)
    ensures Step(ttl, t, Purge(now)) == t.(entries := Live(t.entries, now))
  {
  }

  lemma LastStep(ttl: nat, events: seq<Event>)
    requires events != []
    ensures var before, last := events[..|events| - 1], events[|events| - 1];
      && Run(ttl, events) == Step(ttl, Run(ttl, before), last)
      && Run(ttl, WithoutPurge(events))
           == if last.Purge? then Run(ttl, WithoutPurge(before))
              else Step(ttl, Run(ttl, WithoutPurge(before)), last)
  {
    hide Step;
    var before, last := events[..|events| - 1], events[|events| - 1];
    if !last.Purge? {
      var rest := WithoutPurge(before);
      assert (rest + [last])[..|rest|] == rest;
    }
  }

  // Purging at any points changes no answer, not even across an overflow.
  lemma PurgeIsInvisible(ttl: nat, start: int, events: seq<Event>)
    requires Clocked(start, events)
    ensures Run(ttl, events).answers == Run(ttl, WithoutPurge(events)).answers
  {
    PurgeSimulation(ttl, start, events);
  }

  // ---------------------------------------------------------------------------
  // Exactness: as long as live entries leave room at every insert, nothing is missed.

  predicate LeavesRoom(ttl: nat, events: seq<Event>) {
    events != [] ==>
      var before, last := events[..|events| - 1], events[|events| - 1];
      LeavesRoom(ttl, before)
      && (last.Insert? ==> |Live(Run(ttl, before).entries, last.sweptAt)| < 10_000)
  }

  lemma {:induction false} LiveLatestIsCached(ttl: nat, start: int, events: seq<Event>, token: Token, now: int)
    requires Clocked(start, events) && LeavesRoom(ttl, events) && Clock(start, events) <= now
    requires Latest(ttl, events, token).Some? && Latest(ttl, events, token).value.expiresAt > now
    ensures Found(Run(ttl, events).entries, token, now) == Some(Latest(ttl, events, token).value.user)
  {
    var before, last := events[..|events| - 1], events[|events| - 1];
    if !(last.Insert? && last.token == token) {
      LiveLatestIsCached(ttl, start, before, token, now);
      CachedIsLatest(ttl, before, token);
      var entries := Run(ttl, before).entries;
      assert last.Insert? ==> token in MadeRoom(entries, last.sweptAt)
                              && MadeRoom(entries, last.sweptAt)[token] == entries[token];
    }
  }

  // Then a lookup gives just what the history says.
  lemma LookupIsExact(ttl: nat, start: int, events: seq<Event>, token: Token, now: int)
    requires Clocked(start, events) && LeavesRoom(ttl, events) && Clock(start, events) <= now
    ensures var latest := Latest(ttl, events, token);
      Found(Run(ttl, events).entries, token, now)
        == if latest.Some? && latest.value.expiresAt > now then Some(latest.value.user) else None
  {
    hide Run, Latest, LeavesRoom, Clocked;
    var latest := Latest(ttl, events, token);
    if latest.Some? && latest.value.expiresAt > now {
      LiveLatestIsCached(ttl, start, events, token, now);
    } else if token in Run(ttl, events).entries {
      CachedIsLatest(ttl, events, token);
    }
  }
}
