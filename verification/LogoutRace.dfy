// Logging out beside requests that are being authenticated (src/utils/jwt.rs,
// src/routes/auth.rs, src/services/auth_cache.rs): a request looks into the cache, then into
// the table of sessions, then fills the cache; a logout deletes the session, then the entry.
module LogoutRace {
  import opened Base
  import opened CacheHistory

  // Where a request stands: about to read its session, or about to cache what it read.
  datatype Pc = Looking(token: Token) | Loaded(token: Token, userId: string) | Over

  // `owners` says for every token ever issued for whom it was: none is issued twice.
  datatype State = State(
    sessions: map<Token, string>, owners: map<Token, string>, entries: Entries, requests: map<nat, Pc>)

  datatype Action =
    | Open(token: Token, userId: string)
    | Arrive(r: nat, token: Token, now: int)
    | ReadSession(r: nat)
    | Fill(r: nat, user: string, sweptAt: int, at: int)
    | DeleteSession(token: Token)
    | DropToken(token: Token)
    | DeleteSessionsOf(userId: string)
    | DropUser(userId: string)
    | PurgeExpired(now: int)

  const START := State(map[], map[], map[], map[])

  function At(s: State, r: nat): (pc: Pc) {
    if r in s.requests then s.requests[r] else Over
  }

  function Move(s: State, r: nat, pc: Pc): (s': State) {
    s.(requests := s.requests[r := pc])
  }

  function SessionsOfOthers(sessions: map<Token, string>, userId: string): (rest: map<Token, string>) {
    map t | t in sessions && sessions[t] != userId :: sessions[t]
  }

  // One step; a step that is not due changes nothing.
  function Step(ttl: nat, s: State, a: Action): (s': State) {
    match a
    case Open(token, userId) =>
      if token in s.owners then s
      else s.(sessions := s.sessions[token := userId], owners := s.owners[token := userId])
    case Arrive(r, token, now) =>
      if r in s.requests then s else Move(s, r, if Found(s.entries, token, now).Some? then Over else Looking(token))
    case ReadSession(r) =>
      if At(s, r).Looking? then
        var token := At(s, r).token;
        Move(s, r, if token in s.sessions then Loaded(token, s.sessions[token]) else Over)
      else s
    case Fill(r, user, sweptAt, at) =>
      if At(s, r).Loaded? then
        var pc := At(s, r);
        Move(s.(entries := MadeRoom(s.entries, sweptAt)[pc.token := Entry(user, pc.userId, at + ttl)]), r, Over)
      else s
    case DeleteSession(token) => s.(sessions := s.sessions - {token})
    case DropToken(token) => s.(entries := s.entries - {token})
    case DeleteSessionsOf(userId) => s.(sessions := SessionsOfOthers(s.sessions, userId))
    case DropUser(userId) => s.(entries := Without(s.entries, userId))
    case PurgeExpired(now) => s.(entries := Live(s.entries, now))
  }

  function Run(ttl: nat, s: State, actions: seq<Action>): (s': State)
    decreases |actions|
  {
    if actions == [] then s else Run(ttl, Step(ttl, s, actions[0]), actions[1..])
  }

  // The session is gone for good.
  ghost predicate Ended(s: State, token: Token) {
    token in s.owners && token !in s.sessions
  }

  ghost predicate LoggedOut(s: State, token: Token) {
    Ended(s, token) && token !in s.entries
  }

  // A request has read the session and not yet cached what it read.
  ghost predicate Filling(s: State, token: Token) {
    exists r :: r in s.requests && s.requests[r].Loaded? && s.requests[r].token == token
  }

  // The clock shows at least `from` in everything that is yet to come.
  ghost predicate ReadingsFrom(actions: seq<Action>, from: int) {
    forall i | 0 <= i < |actions| ::
      match actions[i]
      case Arrive(_, _, now) => from <= now
      case Fill(_, _, sweptAt, at) => from <= sweptAt <= at
      case PurgeExpired(now) => from <= now
      case _ => true
  }

  ghost predicate CanHit(ttl: nat, s: State, token: Token, from: int) {
    exists later: seq<Action>, now: int ::
      ReadingsFrom(later, from) && from <= now && Found(Run(ttl, s, later).entries, token, now).Some?
  }

  lemma StepStaysEnded(ttl: nat, s: State, a: Action, token: Token)
    requires Ended(s, token)
    ensures Ended(Step(ttl, s, a), token)
  {
  }

  lemma {:induction false} RunStaysEnded(ttl: nat, s: State, actions: seq<Action>, token: Token)
    requires Ended(s, token)
    ensures Ended(Run(ttl, s, actions), token)
    decreases |actions|
  {
    hide Step, Ended;
    if actions != [] {
      StepStaysEnded(ttl, s, actions[0], token);
      RunStaysEnded(ttl, Step(ttl, s, actions[0]), actions[1..], token);
    }
  }

  // The two statements of a logout, with anything happening between them, log the token out.
  lemma LogoutDone(ttl: nat, s: State, token: Token, between: seq<Action>)
    requires token in s.owners
    ensures LoggedOut(Step(ttl, Run(ttl, Step(ttl, s, DeleteSession(token)), between), DropToken(token)), token)
  {
    hide Run;
    RunStaysEnded(ttl, Step(ttl, s, DeleteSession(token)), between, token);
  }

  lemma StepStaysOver(ttl: nat, s: State, a: Action, r: nat)
    requires r in s.requests && s.requests[r].Over?
    ensures var s' := Step(ttl, s, a); r in s'.requests && s'.requests[r].Over?
  {
    hide Found, MadeRoom, Live;
  }

  lemma {:induction false} RunStaysOver(ttl: nat, s: State, actions: seq<Action>, r: nat)
    requires r in s.requests && s.requests[r].Over?
    ensures At(Run(ttl, s, actions), r).Over?
    decreases |actions|
  {
    hide Step;
    if actions != [] {
      StepStaysOver(ttl, s, actions[0], r);
      RunStaysOver(ttl, Step(ttl, s, actions[0]), actions[1..], r);
    }
  }

  // A request that hits the cache is through: it reads no session and fills nothing, so a hit
  // never prolongs the life of an entry.
  lemma HitFillsNothing(ttl: nat, s: State, r: nat, token: Token, now: int, later: seq<Action>)
    requires r !in s.requests && Found(s.entries, token, now).Some?
    ensures At(Run(ttl, Step(ttl, s, Arrive(r, token, now)), later), r).Over?
  {
    hide Run;
    RunStaysOver(ttl, Step(ttl, s, Arrive(r, token, now)), later, r);
  }

  // Everything that is known of a token is known of the user it was issued for.
  ghost predicate Owned(s: State) {
    && (forall t | t in s.sessions :: t in s.owners && s.sessions[t] == s.owners[t])
    && (forall t | t in s.entries :: t in s.owners && s.entries[t].userId == s.owners[t])
    && (forall r | r in s.requests && s.requests[r].Loaded? ::
          s.requests[r].token in s.owners && s.requests[r].userId == s.owners[s.requests[r].token])
  }

  lemma StepKeepsOwned(ttl: nat, s: State, a: Action)
    requires Owned(s)
    ensures Owned(Step(ttl, s, a)) && forall t | t in s.owners ::
      t in Step(ttl, s, a).owners && Step(ttl, s, a).owners[t] == s.owners[t]
  {
    if a.Fill? && At(s, a.r).Loaded? {
      RoomIsPart(s.entries, a.sweptAt);
    }
    hide Found, MadeRoom;
  }

  lemma RoomIsPart(entries: Entries, now: int)
    ensures forall t | t in MadeRoom(entries, now) :: t in entries && MadeRoom(entries, now)[t] == entries[t]
  {
  }

  lemma {:induction false} RunKeepsOwned(ttl: nat, s: State, actions: seq<Action>)
    requires Owned(s)
    ensures var s' := Run(ttl, s, actions);
      Owned(s') && forall t | t in s.owners :: t in s'.owners && s'.owners[t] == s.owners[t]
    decreases |actions|
  {
    hide Step, Owned;
    if actions != [] {
      StepKeepsOwned(ttl, s, actions[0]);
      RunKeepsOwned(ttl, Step(ttl, s, actions[0]), actions[1..]);
    }
  }

  lemma DropUserDropsAll(ttl: nat, s: State, userId: string, token: Token)
    requires Owned(s) && token in s.owners && s.owners[token] == userId
    ensures token !in Step(ttl, s, DropUser(userId)).entries
  {
  }

  // The two statements that log a user out everywhere, after any run and with anything
  // happening between them, log out every token issued to that user before.
  lemma LogoutAllDone(ttl: nat, actions: seq<Action>, userId: string, between: seq<Action>, token: Token)
    requires var s := Run(ttl, START, actions); token in s.owners && s.owners[token] == userId
    ensures var s := Run(ttl, START, actions);
      LoggedOut(Step(ttl, Run(ttl, Step(ttl, s, DeleteSessionsOf(userId)), between), DropUser(userId)), token)
  {
    hide Run;
    var s := Run(ttl, START, actions);
    RunKeepsOwned(ttl, START, actions);
    var s1 := Step(ttl, s, DeleteSessionsOf(userId));
    StepKeepsOwned(ttl, s, DeleteSessionsOf(userId));
    assert Ended(s1, token);
    RunKeepsOwned(ttl, s1, between);
    RunStaysEnded(ttl, s1, between, token);
    DropUserDropsAll(ttl, Run(ttl, s1, between), userId, token);
  }

  lemma StepStaysOut(ttl: nat, s: State, a: Action, token: Token)
    requires LoggedOut(s, token) && !Filling(s, token)
    ensures LoggedOut(Step(ttl, s, a), token) && !Filling(Step(ttl, s, a), token)
  {
    hide Live, Found, MadeRoom;
    var s' := Step(ttl, s, a);
    RoomHasNoMore(s.entries, token);
    assert LoggedOut(s', token);
    forall r | r in s'.requests && s'.requests[r].Loaded? ensures s'.requests[r].token != token {
      assert r in s.requests && s.requests[r].Loaded? ==> s.requests[r].token != token;
    }
  }

  lemma RoomHasNoMore(entries: Entries, token: Token)
    requires token !in entries
    ensures forall now: int :: token !in MadeRoom(entries, now) && token !in Live(entries, now)
  {
  }

  lemma {:induction false} RunStaysOut(ttl: nat, s: State, actions: seq<Action>, token: Token)
    requires LoggedOut(s, token) && !Filling(s, token)
    ensures token !in Run(ttl, s, actions).entries
    decreases |actions|
  {
    hide Step, Filling;
    if actions != [] {
      StepStaysOut(ttl, s, actions[0], token);
      RunStaysOut(ttl, Step(ttl, s, actions[0]), actions[1..], token);
    }
  }

  lemma FillGivesHit(ttl: nat, s: State, r: nat, at: int)
    requires ttl > 0 && At(s, r).Loaded?
    ensures Found(Run(ttl, s, [Fill(r, "", at, at)]).entries, At(s, r).token, at) == Some("")
  {
    hide MadeRoom;
    var a := Fill(r, "", at, at);
    assert [a][1..] == [] && Run(ttl, Step(ttl, s, a), []) == Step(ttl, s, a);
  }

  // After a logout, whatever the clock shows, the token can be let through by the cache
  // again, if and only if a request had read its session before the logout and has not yet
  // cached it.
  lemma HitAfterLogoutIff(ttl: nat, s: State, token: Token, from: int)
    requires ttl > 0 && LoggedOut(s, token)
    ensures CanHit(ttl, s, token, from) <==> Filling(s, token)
  {
    hide Run, Step;
    if Filling(s, token) {
      var r :| r in s.requests && s.requests[r].Loaded? && s.requests[r].token == token;
      FillGivesHit(ttl, s, r, from);
      assert ReadingsFrom([Fill(r, "", from, from)], from);
    } else {
      forall later: seq<Action>, now: int ensures Found(Run(ttl, s, later).entries, token, now).None? {
        RunStaysOut(ttl, s, later, token);
      }
    }
  }

  // What one step makes of the entry of a token: nothing, or what a fill puts there.
  lemma StepOfEntry(ttl: nat, s: State, a: Action, token: Token)
    ensures var entries := Step(ttl, s, a).entries;
      token in entries ==>
        || (token in s.entries && entries[token] == s.entries[token])
        || (a.Fill? && entries[token].expiresAt == a.at + ttl && entries[token].user == a.user)
  {
    if a.Fill? && At(s, a.r).Loaded? {
      RoomIsPart(s.entries, a.sweptAt);
    }
    hide Found, MadeRoom;
  }

  ghost predicate FilledBy(ttl: nat, actions: seq<Action>, e: Entry) {
    exists i ::
      0 <= i < |actions| && actions[i].Fill? && e.expiresAt == actions[i].at + ttl && e.user == actions[i].user
  }

  lemma {:induction false} EntryIsOfFill(ttl: nat, s: State, actions: seq<Action>, token: Token)
    ensures var entries := Run(ttl, s, actions).entries;
      token in entries ==> (token in s.entries && entries[token] == s.entries[token])
                           || FilledBy(ttl, actions, entries[token])
    decreases |actions|
  {
    hide Step;
    if actions != [] {
      var rest, entries := actions[1..], Run(ttl, s, actions).entries;
      StepOfEntry(ttl, s, actions[0], token);
      EntryIsOfFill(ttl, Step(ttl, s, actions[0]), rest, token);
      if token in entries && FilledBy(ttl, rest, entries[token]) {
        var i :| 0 <= i < |rest| && rest[i].Fill? && entries[token].expiresAt == rest[i].at + ttl
                 && entries[token].user == rest[i].user;
        assert actions[i + 1] == rest[i];
      }
    }
  }

  // And it does not last: a token that is let through after its logout was cached after the
  // logout, less than one lifetime ago.
  lemma HitAfterLogoutIsShort(ttl: nat, s: State, later: seq<Action>, token: Token, now: int)
    requires LoggedOut(s, token)
    ensures var hit := Found(Run(ttl, s, later).entries, token, now);
      hit.Some? ==> exists i ::
        0 <= i < |later| && later[i].Fill? && later[i].user == hit.value && now < later[i].at + ttl
  {
    hide Run;
    EntryIsOfFill(ttl, s, later, token);
  }

  // It happens: the request reads the session, the logout runs, and then the request fills
  // the cache.
  function ReadBeforeLogout(): (actions: seq<Action>) {
    [Open(0, "u"), Arrive(0, 0, 0), ReadSession(0), DeleteSession(0), DropToken(0)]
  }

  lemma LogoutCanBeOutrun(ttl: nat, from: int)
    requires ttl > 0
    ensures var s := Run(ttl, START, ReadBeforeLogout()); LoggedOut(s, 0) && CanHit(ttl, s, 0, from)
  {
    var todo := ReadBeforeLogout();
    var s1 := Step(ttl, START, todo[0]);
    var s2 := Step(ttl, s1, todo[1]);
    var s3 := Step(ttl, s2, todo[2]);
    var s4 := Step(ttl, s3, todo[3]);
    var s5 := Step(ttl, s4, todo[4]);
    assert At(s3, 0) == Loaded(0, "u");
    Unroll(ttl, START, todo);
    Unroll(ttl, s1, todo[1..]);
    Unroll(ttl, s2, todo[1..][1..]);
    Unroll(ttl, s3, todo[1..][1..][1..]);
    Unroll(ttl, s4, todo[1..][1..][1..][1..]);
    assert todo[1..][1..][1..][1..][1..] == [];
    assert s5.requests[0] == Loaded(0, "u");
    hide Step;
    HitAfterLogoutIff(ttl, s5, 0, from);
  }

  lemma Unroll(ttl: nat, s: State, todo: seq<Action>)
    requires todo != []
    ensures Run(ttl, s, todo) == Run(ttl, Step(ttl, s, todo[0]), todo[1..])
  {
  }
}
