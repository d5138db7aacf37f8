// The grant handlers of src/services/oidc.rs as they run on the tables, statement by
// statement. Each call, taken by itself, is a run of the machine in Oidc; what other requests
// do between its statements is left to that machine.
module OidcService {
  import opened Base
  import opened Scopes
  import opened Oidc

  // Which reads give an answer, and what becomes of each update.
  datatype Luck = Luck(client: bool, read: bool, consume: Fate, drop: Fate, usable: bool, saveAccess: Fate,
                       saveRefresh: Fate, idToken: bool, revokeAccess: Fate, revokeRefresh: Fate)

  // Randomness and clock of one call.
  datatype Draw = Draw(access: Token, refresh: Token, now: int, issuedAt: int)

  datatype TokenResponse = TokenResponse(access: Token, refresh: Option<Token>, scope: string, idToken: bool)

  // Everybody else's tokens.
  function WithoutAccess(access: map<Token, AccessRow>, clientId: string, user: string): (r: map<Token, AccessRow>) {
    map t | t in access && !(access[t].clientId == clientId && access[t].user == user) :: access[t]
  }

  function WithoutRefresh(refresh: map<Token, RefreshRow>, clientId: string, user: string):
    (r: map<Token, RefreshRow>)
  {
    map t | t in refresh && !(refresh[t].clientId == clientId && refresh[t].user == user) :: refresh[t]
  }

  class Tables {
    var clients: map<string, Client>
    var codes: map<Token, CodeRow>
    var access: map<Token, AccessRow>
    var refresh: map<Token, RefreshRow>

    // UPDATE ... SET used = true WHERE code_hash = ... AND used = false. Tells whether a row was changed.
    method UpdateAuthorizationCode(code: Token, fate: Fate) returns (ok: bool)
      modifies this`codes
      ensures codes == if !fate.NotExecuted? && code in old(codes) && !old(codes)[code].used
                       then old(codes)[code := old(codes)[code].(used := true)] else old(codes)
      ensures ok <==> fate.Answered? && code in old(codes) && !old(codes)[code].used
    {
      ok := false;
      if !fate.NotExecuted? && code in codes && !codes[code].used {
        codes := codes[code := codes[code].(used := true)];
        ok := fate.Answered?;
      }
    }

    method ConsumeRefreshToken(token: Token, fate: Fate) returns (ok: bool)
      modifies this`refresh
      ensures refresh == if !fate.NotExecuted? && token in old(refresh) && !old(refresh)[token].used
                         then old(refresh)[token := old(refresh)[token].(used := true)] else old(refresh)
      ensures ok <==> fate.Answered? && token in old(refresh) && !old(refresh)[token].used
    {
      ok := false;
      if !fate.NotExecuted? && token in refresh && !refresh[token].used {
        refresh := refresh[token := refresh[token].(used := true)];
        ok := fate.Answered?;
      }
    }

    // Both deletes; the second is not tried when the first gives no answer.
    method RevokeClientTokensForUser(clientId: string, user: string, first: Fate, second: Fate) returns (ok: bool)
      modifies this`access, this`refresh
      ensures access == if first.NotExecuted? then old(access)
        else map t | t in old(access) && !(old(access)[t].clientId == clientId && old(access)[t].user == user)
               :: old(access)[t]
      ensures refresh == if !first.Answered? || second.NotExecuted? then old(refresh)
        else map t | t in old(refresh) && !(old(refresh)[t].clientId == clientId && old(refresh)[t].user == user)
               :: old(refresh)[t]
      ensures ok <==> first.Answered? && second.Answered?
    {
      if !first.NotExecuted? {
        access := map t | t in access && !(access[t].clientId == clientId && access[t].user == user) :: access[t];
      }
      if first.Answered? && !second.NotExecuted? {
        refresh := map t | t in refresh && !(refresh[t].clientId == clientId && refresh[t].user == user) :: refresh[t];
      }
      ok := first.Answered? && second.Answered?;
    }

    // Everything that has expired goes, and nothing else.
    method CleanupExpiredArtifacts(now: int)
      modifies this`codes, this`access, this`refresh
      ensures codes == map t | t in old(codes) && old(codes)[t].expiresAt >= now :: old(codes)[t]
      ensures access == map t | t in old(access) && old(access)[t].expiresAt >= now :: old(access)[t]
      ensures refresh == map t | t in old(refresh) && old(refresh)[t].expiresAt >= now :: old(refresh)[t]
    {
      codes := map t | t in codes && codes[t].expiresAt >= now :: codes[t];
      access := map t | t in access && access[t].expiresAt >= now :: access[t];
      refresh := map t | t in refresh && refresh[t].expiresAt >= now :: refresh[t];
    }
  }

  lemma {:induction false} RunOneMore(crypto: Crypto, s: State, actions: seq<Action>, a: Action)
    ensures Run(crypto, s, actions + [a]) == Step(crypto, Run(crypto, s, actions), a)
    decreases |actions|
  {
    hide Step;
    if actions == [] {
      assert ([] + [a])[1..] == [];
    } else {
      assert (actions + [a])[1..] == actions[1..] + [a];
      RunOneMore(crypto, Step(crypto, s, actions[0]), actions[1..], a);
    }
  }

  lemma {:induction false} RunInTwoParts(crypto: Crypto, s: State, first: seq<Action>, second: seq<Action>)
    ensures Run(crypto, s, first + second) == Run(crypto, Run(crypto, s, first), second)
    decreases |first|
  {
    hide Step;
    if first == [] {
      assert [] + second == second;
    } else {
      assert (first + second)[1..] == first[1..] + second;
      RunInTwoParts(crypto, Step(crypto, s, first[0]), first[1..], second);
    }
  }

  lemma RunNothing(crypto: Crypto, s: State)
    ensures Run(crypto, s, []) == s
  {
  }

  // Where request r stands in the machine, and the tables as the machine has them.
  ghost predicate Sees(s: State, db: Tables, r: nat, ask: TokenRequest, pc: Pc)
    reads db
  {
    && s.clients == db.clients && s.codes == db.codes && s.access == db.access && s.refresh == db.refresh
    && r in s.requests && s.requests[r] == Request(ask, pc)
  }

  ghost predicate Unused(s: State, draw: Draw) {
    draw.access !in s.log.taken && draw.refresh !in s.log.taken && draw.access != draw.refresh
  }

  // One more step of request r, as a single state function.
  lemma StepRun(crypto: Crypto, s: State, actions: seq<Action>, a: Action, r: nat, now: State)
    requires now == Run(crypto, s, actions) && r in now.requests
    requires !a.SetClients? && !a.DeleteRows? && !a.Authorize? && !a.Arrive? && !a.Crash? && a.r == r
    ensures Run(crypto, s, actions + [a]) == RequestStep(crypto, now, a)
  {
    hide Run, RequestStep;
    RunOneMore(crypto, s, actions, a);
  }

  lemma LoadUserIs(crypto: Crypto, s: State, r: nat, now: int, usable: bool)
    requires At(s, r).Granted? && r in s.requests
    ensures RequestStep(crypto, s, LoadUser(r, now, usable))
      == SetPc(s, r, if usable then Active(At(s, r).client, At(s, r).grant, now) else Failed)
  {
  }

  lemma SaveAccessIs(crypto: Crypto, s: State, r: nat, token: Token, fate: Fate)
    requires At(s, r).Active? && r in s.requests && token !in s.log.taken
    ensures RequestStep(crypto, s, SaveAccess(r, token, fate)) == SaveAccessStep(s, r, At(s, r), token, fate)
  {
    hide SaveAccessStep;
  }

  lemma SaveRefreshIs(crypto: Crypto, s: State, r: nat, token: Token, fate: Fate)
    requires At(s, r).AccessSaved? && r in s.requests
    ensures RequestStep(crypto, s, SaveRefresh(r, token, fate)) == SaveRefreshStep(s, r, At(s, r), token, fate)
  {
    hide SaveRefreshStep;
  }

  lemma RespondIs(crypto: Crypto, s: State, r: nat, idToken: bool)
    requires At(s, r).Ready? && r in s.requests
    ensures RequestStep(crypto, s, Respond(r, idToken)) == RespondStep(s, r, At(s, r), idToken)
  {
    hide RespondStep;
  }

  // The tables and the request after the access token has been saved, or not.
  lemma AccessSaves(crypto: Crypto, s: State, r: nat, token: Token, fate: Fate)
    requires At(s, r).Active? && r in s.requests && token !in s.log.taken
    ensures var pc, s' := At(s, r), RequestStep(crypto, s, SaveAccess(r, token, fate));
      && s'.clients == s.clients && s'.codes == s.codes && s'.refresh == s.refresh
      && s'.access == (if fate.NotExecuted? then s.access
                       else s.access[token := AccessRow(pc.client.clientId, pc.grant.user, pc.grant.scope,
                                                        pc.now + pc.client.accessLifetime)])
      && s'.log.taken == s.log.taken + {token} && r in s'.requests
      && s'.requests[r] == Request(s.requests[r].ask,
                                   if fate.Answered? then AccessSaved(pc.client, pc.grant, pc.now, token) else Failed)
  {
    hide RequestStep;
    SaveAccessIs(crypto, s, r, token, fate);
  }

  // And after the refresh token.
  lemma RefreshSaves(crypto: Crypto, s: State, r: nat, token: Token, fate: Fate)
    requires At(s, r).AccessSaved? && r in s.requests && token !in s.log.taken
    ensures var pc, s' := At(s, r), RequestStep(crypto, s, SaveRefresh(r, token, fate));
      && s'.clients == s.clients && s'.codes == s.codes && s'.access == s.access
      && s'.refresh == (if !pc.client.refreshGrant || fate.NotExecuted? then s.refresh
                        else s.refresh[token := NewRefresh(pc)])
      && r in s'.requests
      && s'.requests[r] == Request(s.requests[r].ask,
           if !pc.client.refreshGrant then Ready(pc.client, pc.grant, pc.access, None)
           else if fate.Answered? then Ready(pc.client, pc.grant, pc.access, Some(token)) else Failed)
  {
    hide RequestStep, Minted;
    SaveRefreshIs(crypto, s, r, token, fate);
  }

  function SaveActions(r: nat, draw: Draw, luck: Luck): (actions: seq<Action>) {
    if luck.saveAccess.Answered?
    then [SaveAccess(r, draw.access, luck.saveAccess), SaveRefresh(r, draw.refresh, luck.saveRefresh)]
    else [SaveAccess(r, draw.access, luck.saveAccess)]
  }

  function IssuedAccess(client: Client, grant: Grant, now: int): (r: AccessRow) {
    AccessRow(client.clientId, grant.user, grant.scope, now + client.accessLifetime)
  }

  function IssuedRefresh(client: Client, grant: Grant, access: Token, now: int): (r: RefreshRow) {
    RefreshRow(client.clientId, grant.user, access, grant.scope, grant.session, false, now + client.refreshLifetime)
  }

  // The tables and the request after both have been saved, or the first has not.
  lemma SaveEnds(crypto: Crypto, s: State, r: nat, draw: Draw, luck: Luck)
    requires At(s, r).Active? && r in s.requests && Unused(s, draw)
    ensures var pc, s' := At(s, r), Run(crypto, s, SaveActions(r, draw, luck));
      var ok := luck.saveAccess.Answered? && (pc.client.refreshGrant ==> luck.saveRefresh.Answered?);
      && s'.clients == s.clients && s'.codes == s.codes
      && s'.access == (if luck.saveAccess.NotExecuted? then s.access
                       else s.access[draw.access := IssuedAccess(pc.client, pc.grant, pc.now)])
      && s'.refresh == (if !luck.saveAccess.Answered? || !pc.client.refreshGrant || luck.saveRefresh.NotExecuted?
                        then s.refresh
                        else s.refresh[draw.refresh := IssuedRefresh(pc.client, pc.grant, draw.access, pc.now)])
      && r in s'.requests
      && s'.requests[r] == Request(s.requests[r].ask,
           if !ok then Failed
           else Ready(pc.client, pc.grant, draw.access, if pc.client.refreshGrant then Some(draw.refresh) else None))
  {
    hide Run, RequestStep;
    var first := [SaveAccess(r, draw.access, luck.saveAccess)];
    RunNothing(crypto, s);
    StepRun(crypto, s, [], first[0], r, s);
    AccessSaves(crypto, s, r, draw.access, luck.saveAccess);
    assert [] + first == first;
    if luck.saveAccess.Answered? {
      var now := Run(crypto, s, first);
      StepRun(crypto, s, first, SaveRefresh(r, draw.refresh, luck.saveRefresh), r, now);
      RefreshSaves(crypto, now, r, draw.refresh, luck.saveRefresh);
      assert first + [SaveRefresh(r, draw.refresh, luck.saveRefresh)] == SaveActions(r, draw, luck);
    }
  }

  // Save the access token, then the refresh token if the client may have one.
  method SaveTokens(crypto: Crypto, db: Tables, ask: TokenRequest, client: Client, grant: Grant, draw: Draw, luck: Luck,
                    ghost s: State, ghost r: nat)
    returns (ok: bool, ghost actions: seq<Action>)
    requires Sees(s, db, r, ask, Active(client, grant, draw.issuedAt)) && Unused(s, draw)
    modifies db`access, db`refresh
    ensures Sees(Run(crypto, s, actions), db, r, ask,
      if ok then Ready(client, grant, draw.access, if client.refreshGrant then Some(draw.refresh) else None)
      else Failed)
    ensures ok <==> luck.saveAccess.Answered? && (client.refreshGrant ==> luck.saveRefresh.Answered?)
    ensures db.access == if luck.saveAccess.NotExecuted? then old(db.access) else old(db.access)[draw.access :=
      AccessRow(client.clientId, grant.user, grant.scope, draw.issuedAt + client.accessLifetime)]
    ensures db.refresh ==
      if !luck.saveAccess.Answered? || !client.refreshGrant || luck.saveRefresh.NotExecuted? then old(db.refresh)
      else old(db.refresh)[draw.refresh := RefreshRow(client.clientId, grant.user, draw.access, grant.scope,
                                                      grant.session, false, draw.issuedAt + client.refreshLifetime)]
  {
    hide Run, SaveActions;
    SaveEnds(crypto, s, r, draw, luck);
    actions := SaveActions(r, draw, luck);
    if !luck.saveAccess.NotExecuted? {
      db.access := db.access[draw.access :=
        AccessRow(client.clientId, grant.user, grant.scope, draw.issuedAt + client.accessLifetime)];
    }
    if !luck.saveAccess.Answered? {
      return false, actions;
    }
    ok := true;
    if client.refreshGrant {
      if !luck.saveRefresh.NotExecuted? {
        db.refresh := db.refresh[draw.refresh :=
          RefreshRow(client.clientId, grant.user, draw.access, grant.scope, grant.session, false,
                     draw.issuedAt + client.refreshLifetime)];
      }
      ok := luck.saveRefresh.Answered?;
    }
  }

  method GenerateTokens(crypto: Crypto, db: Tables, ask: TokenRequest, client: Client, grant: Grant, draw: Draw,
                        luck: Luck, ghost s: State, ghost r: nat)
    returns (answer: Option<TokenResponse>, ghost actions: seq<Action>)
    requires Sees(s, db, r, ask, Granted(client, grant)) && Unused(s, draw)
    modifies db`access, db`refresh
    ensures Sees(Run(crypto, s, actions), db, r, ask, if answer.Some? then Responded(client, grant) else Failed)
    // What stands in the way of an answer.
    ensures answer.Some? <==>
      && luck.usable && luck.saveAccess.Answered? && (client.refreshGrant ==> luck.saveRefresh.Answered?)
      && ("openid" in Words(grant.scope) ==> luck.idToken)
    ensures answer.Some? ==>
      answer.value == TokenResponse(draw.access, if client.refreshGrant then Some(draw.refresh) else None,
                                    grant.scope, "openid" in Words(grant.scope))
    // What is stored in any case; for an account that may not log in, nothing.
    ensures db.access == if !luck.usable || luck.saveAccess.NotExecuted? then old(db.access)
      else old(db.access)[draw.access :=
        AccessRow(client.clientId, grant.user, grant.scope, draw.issuedAt + client.accessLifetime)]
    ensures db.refresh ==
      if !luck.usable || !luck.saveAccess.Answered? || !client.refreshGrant || luck.saveRefresh.NotExecuted?
      then old(db.refresh)
      else old(db.refresh)[draw.refresh := RefreshRow(client.clientId, grant.user, draw.access, grant.scope,
                                                      grant.session, false, draw.issuedAt + client.refreshLifetime)]
  {
    hide Run, RequestStep;
    RunNothing(crypto, s);
    actions := [LoadUser(r, draw.issuedAt, luck.usable)];
    StepRun(crypto, s, [], actions[0], r, s);
    LoadUserIs(crypto, s, r, draw.issuedAt, luck.usable);
    assert [] + actions == actions;
    if !luck.usable {
      return None, actions;
    }
    ghost var now := SetPc(s, r, Active(client, grant, draw.issuedAt));
    var ok, saving := SaveTokens(crypto, db, ask, client, grant, draw, luck, now, r);
    RunInTwoParts(crypto, s, actions, saving);
    actions, now := actions + saving, Run(crypto, now, saving);
    if !ok {
      return None, actions;
    }
    StepRun(crypto, s, actions, Respond(r, luck.idToken), r, now);
    RespondIs(crypto, now, r, luck.idToken);
    actions := actions + [Respond(r, luck.idToken)];
    var openid := OPENID in Words(grant.scope);
    if openid && !luck.idToken {
      return None, actions;
    }
    var refresh := if client.refreshGrant then Some(draw.refresh) else None;
    answer := Some(TokenResponse(draw.access, refresh, grant.scope, openid));
  }

  lemma AuthenticateIs(crypto: Crypto, s: State, r: nat, readable: bool)
    requires At(s, r).Arrived? && r in s.requests
    ensures RequestStep(crypto, s, Authenticate(r, readable))
      == SetPc(s, r, if readable then AfterAuthenticate(crypto, s.clients, s.requests[r].ask) else Failed)
  {
    hide AfterAuthenticate;
  }

  lemma ReadCodeIs(crypto: Crypto, s: State, r: nat, now: int, readable: bool)
    requires At(s, r).CodeClient? && r in s.requests
    ensures RequestStep(crypto, s, ReadCode(r, now, readable))
      == SetPc(s, r, if readable then AfterReadCode(crypto, s.codes, s.requests[r].ask, At(s, r).client, now)
                     else Failed)
  {
    hide AfterReadCode;
  }

  lemma ConsumeCodeIs(crypto: Crypto, s: State, r: nat, fate: Fate)
    requires At(s, r).Redeeming? && r in s.requests && s.requests[r].ask.code.Some?
    ensures RequestStep(crypto, s, ConsumeCode(r, fate))
      == ConsumeCodeStep(s, r, At(s, r).client, At(s, r).code, fate)
  {
    hide ConsumeCodeStep;
  }

  lemma ReadRefreshIs(crypto: Crypto, s: State, r: nat, now: int, readable: bool)
    requires At(s, r).RefreshClient? && r in s.requests
    ensures RequestStep(crypto, s, ReadRefresh(r, now, readable))
      == SetPc(s, r, if readable then AfterReadRefresh(s.refresh, s.requests[r].ask, At(s, r).client, now) else Failed)
  {
    hide AfterReadRefresh;
  }

  lemma ConsumeRefreshIs(crypto: Crypto, s: State, r: nat, fate: Fate)
    requires At(s, r).Rotating? && r in s.requests && s.requests[r].ask.refreshToken.Some?
    ensures RequestStep(crypto, s, ConsumeRefresh(r, fate))
      == ConsumeRefreshStep(s, r, At(s, r).client, At(s, r).token, fate)
  {
    hide ConsumeRefreshStep;
  }

  lemma DropAccessIs(crypto: Crypto, s: State, r: nat, fate: Fate)
    requires At(s, r).Dropping? && r in s.requests && s.requests[r].ask.refreshToken.Some?
    ensures RequestStep(crypto, s, DropAccess(r, fate))
      == SetPc(if fate.NotExecuted? then s else Delete(s, {}, {At(s, r).token.access}, {}), r,
               if fate.Answered? then AfterDrop(s.requests[r].ask, At(s, r).client, At(s, r).token) else Failed)
  {
    hide AfterDrop, Delete;
  }

  lemma RevokeAccessIs(crypto: Crypto, s: State, r: nat, fate: Fate)
    requires At(s, r).Revoking? && r in s.requests
    ensures RequestStep(crypto, s, RevokeAccess(r, fate))
      == SetPc(if fate.NotExecuted? then s else Delete(s, {}, AccessOf(s, At(s, r).clientId, At(s, r).user), {}), r,
               if fate.Answered? then RevokingRefresh(At(s, r).clientId, At(s, r).user) else Failed)
  {
    hide Delete, AccessOf;
  }

  lemma RevokeRefreshIs(crypto: Crypto, s: State, r: nat, fate: Fate)
    requires At(s, r).RevokingRefresh? && r in s.requests
    ensures RequestStep(crypto, s, RevokeRefresh(r, fate))
      == SetPc(if fate.NotExecuted? then s else Delete(s, {}, {}, RefreshOf(s, At(s, r).clientId, At(s, r).user)), r,
               Failed)
  {
    hide Delete, RefreshOf;
  }

  // The call is over: the machine agrees on the tables and on whether there is an answer.
  ghost predicate Ended(s: State, db: Tables, r: nat, ask: TokenRequest, answered: bool)
    reads db
  {
    && s.clients == db.clients && s.codes == db.codes && s.access == db.access && s.refresh == db.refresh
    && r in s.requests && s.requests[r].ask == ask
    && (if answered then s.requests[r].pc.Responded? else s.requests[r].pc.Failed?)
  }

  method AuthenticateClient(crypto: Crypto, db: Tables, ask: TokenRequest, luck: Luck, ghost s: State, ghost r: nat)
    returns (client: Option<Client>, ghost actions: seq<Action>)
    requires Sees(s, db, r, ask, Arrived)
    ensures Sees(Run(crypto, s, actions), db, r, ask,
                 if luck.client then AfterAuthenticate(crypto, db.clients, ask) else Failed)
    ensures Run(crypto, s, actions).log == s.log
    ensures client.Some? <==>
      && luck.client && ask.clientId in db.clients
      && var found := db.clients[ask.clientId];
      && found.isActive && found.clientId == ask.clientId
      && if ask.secret.Some? then crypto.secretMatches(found.secretHash, ask.secret.value) else found.isPublic
    ensures client.Some? ==> client.value == db.clients[ask.clientId]
  {
    hide Run, RequestStep, AfterAuthenticate;
    RunNothing(crypto, s);
    actions := [Authenticate(r, luck.client)];
    StepRun(crypto, s, [], actions[0], r, s);
    AuthenticateIs(crypto, s, r, luck.client);
    assert [] + actions == actions;
    client := None;
    if luck.client && ask.clientId in db.clients {
      var found := db.clients[ask.clientId];
      if found.isActive && found.clientId == ask.clientId {
        var valid := found.isPublic;
        if ask.secret.Some? {
          valid := crypto.secretMatches(found.secretHash, ask.secret.value);
        }
        if valid {
          client := Some(found);
        }
      }
    }
  }

  // The tables and the request after the guarded update of a code.
  lemma CodeConsumes(crypto: Crypto, s: State, r: nat, fate: Fate)
    requires At(s, r).Redeeming? && r in s.requests && s.requests[r].ask.code.Some?
    ensures var pc, ask, s' := At(s, r), s.requests[r].ask, RequestStep(crypto, s, ConsumeCode(r, fate));
      var unused := ask.code.value in s.codes && !s.codes[ask.code.value].used;
      && s'.clients == s.clients && s'.access == s.access && s'.refresh == s.refresh && s'.log.taken == s.log.taken
      && s'.codes == (if unused && !fate.NotExecuted?
                      then s.codes[ask.code.value := s.codes[ask.code.value].(used := true)] else s.codes)
      && r in s'.requests
      && s'.requests[r] == Request(ask, if unused && fate.Answered?
                                        then Granted(pc.client, CodeGrantOf(ask.code.value, pc.code)) else Failed)
  {
    hide RequestStep;
    ConsumeCodeIs(crypto, s, r, fate);
  }

  // The client is there, active and the one named, and shows its secret or is public and
  // shows none.
  ghost predicate ClientShown(crypto: Crypto, clients: map<string, Client>, ask: TokenRequest, luck: Luck) {
    && luck.client && ask.clientId in clients
    && var found := clients[ask.clientId];
    && found.isActive && found.clientId == ask.clientId
    && if ask.secret.Some? then crypto.secretMatches(found.secretHash, ask.secret.value) else found.isPublic
  }

  // The code is unused, in time, and issued to this client for this redirect URI; a public
  // client has a challenge, and whoever has one shows a verifier for it (section 4.6 of RFC
  // 7636, S256 only).
  ghost predicate CodeShown(crypto: Crypto, client: Client, row: CodeRow, ask: TokenRequest, now: int) {
    && !row.used && now <= row.expiresAt && row.clientId == ask.clientId && ask.redirectUri == Some(row.redirectUri)
    && (client.isPublic ==> row.challenge.Some?)
    && (row.challenge.Some? ==>
          && ask.verifier.Some? && 43 <= |ask.verifier.value| <= 128
          && (forall c | c in ask.verifier.value ::
                'a' <= c <= 'z' || 'A' <= c <= 'Z' || '0' <= c <= '9' || c in "-._~")
          && row.challengeMethod == Some("S256") && crypto.s256(ask.verifier.value) == row.challenge.value)
  }

  // What has to go well once the source is consumed.
  ghost predicate TokensMade(client: Client, scope: string, luck: Luck) {
    && luck.usable && luck.saveAccess.Answered? && (client.refreshGrant ==> luck.saveRefresh.Answered?)
    && ("openid" in Words(scope) ==> luck.idToken)
  }

  // The tables after tokens were made, as far as the statements were executed; nothing, if
  // none were due.
  ghost predicate Issued(client: Client, user: string, scope: string, session: Option<string>, draw: Draw, luck: Luck,
                         due: bool, access: map<Token, AccessRow>, refresh: map<Token, RefreshRow>,
                         access': map<Token, AccessRow>, refresh': map<Token, RefreshRow>) {
    && access' == (if !due || !luck.usable || luck.saveAccess.NotExecuted? then access
                   else access[draw.access :=
                     AccessRow(client.clientId, user, scope, draw.issuedAt + client.accessLifetime)])
    && refresh' == (if !due || !luck.usable || !luck.saveAccess.Answered? || !client.refreshGrant
                       || luck.saveRefresh.NotExecuted? then refresh
                    else refresh[draw.refresh := RefreshRow(client.clientId, user, draw.access, scope, session, false,
                                                            draw.issuedAt + client.refreshLifetime)])
  }

  lemma NoRedirectNotShown(crypto: Crypto, ask: TokenRequest)
    requires ask.redirectUri.None?
    ensures forall client: Client, row: CodeRow, now: int :: !CodeShown(crypto, client, row, ask, now)
  {
  }

  lemma ShownIsMatching(crypto: Crypto, client: Client, row: CodeRow, ask: TokenRequest, now: int)
    ensures CodeShown(crypto, client, row, ask, now)
      <==> !row.used && now <= row.expiresAt && CodeMatches(crypto, client, row, ask)
  {
    if ask.verifier.Some? {
      var v := ask.verifier.value;
      forall c: char ensures VerifierChar(c) <==> 'a' <= c <= 'z' || 'A' <= c <= 'Z' || '0' <= c <= '9' || c in "-._~" {
        assert c in "-._~" <==> c == "-._~"[0] || c == "-._~"[1] || c == "-._~"[2] || c == "-._~"[3];
      }
      hide VerifierChar;
      assert (forall c | c in v :: VerifierChar(c)) <==> (forall i | 0 <= i < |v| :: VerifierChar(v[i]));
    }
  }

  ghost predicate CodeIsShown(crypto: Crypto, clients: map<string, Client>, codes: map<Token, CodeRow>,
                              ask: TokenRequest, now: int, luck: Luck) {
    && ClientShown(crypto, clients, ask, luck) && clients[ask.clientId].codeGrant
    && luck.read && ask.code.Some? && ask.code.value in codes
    && CodeShown(crypto, clients[ask.clientId], codes[ask.code.value], ask, now)
  }

  // The client and the code it presents, if the code may be redeemed.
  method PresentedCode(crypto: Crypto, db: Tables, ask: TokenRequest, draw: Draw, luck: Luck,
                       ghost s: State, ghost r: nat)
    returns (found: Option<(Client, CodeRow)>, ghost actions: seq<Action>)
    requires Sees(s, db, r, ask, Arrived) && ask.grantType == "authorization_code"
    ensures found.Some? <==> CodeIsShown(crypto, db.clients, db.codes, ask, draw.now, luck)
    ensures found.Some? ==>
      && ask.clientId in db.clients && ask.code.Some? && ask.code.value in db.codes && !db.codes[ask.code.value].used
      && found.value == (db.clients[ask.clientId], db.codes[ask.code.value])
    ensures Run(crypto, s, actions).log.taken == s.log.taken
    ensures Sees(Run(crypto, s, actions), db, r, ask,
                 if found.None? then Failed else Redeeming(found.value.0, found.value.1))
  {
    if ask.redirectUri.None? {
      NoRedirectNotShown(crypto, ask);
    }
    hide Run, RequestStep, CodeMatches, CodeShown;
    var client;
    client, actions := AuthenticateClient(crypto, db, ask, luck, s, r);
    ghost var now := Run(crypto, s, actions);
    if client.None? || ask.code.None? || ask.redirectUri.None? || !client.value.codeGrant {
      return None, actions;
    }
    StepRun(crypto, s, actions, ReadCode(r, draw.now, luck.read), r, now);
    ReadCodeIs(crypto, now, r, draw.now, luck.read);
    actions := actions + [ReadCode(r, draw.now, luck.read)];
    if !luck.read || ask.code.value !in db.codes {
      return None, actions;
    }
    var row := db.codes[ask.code.value];
    ShownIsMatching(crypto, client.value, row, ask, draw.now);
    if row.used || row.expiresAt < draw.now || !CodeMatches(crypto, client.value, row, ask) {
      return None, actions;
    }
    found := Some((client.value, row));
  }

  method HandleAuthorizationCodeGrant(crypto: Crypto, db: Tables, ask: TokenRequest, draw: Draw, luck: Luck,
                                      ghost s: State, ghost r: nat)
    returns (answer: Option<TokenResponse>, ghost actions: seq<Action>)
    requires Sees(s, db, r, ask, Arrived) && ask.grantType == "authorization_code" && Unused(s, draw)
    modifies db`codes, db`access, db`refresh
    ensures Ended(Run(crypto, s, actions), db, r, ask, answer.Some?)
    // There is an answer exactly if the client shows who it is and that the code is for it,
    // and every statement is answered.
    ensures answer.Some? <==>
      && CodeIsShown(crypto, db.clients, old(db.codes), ask, draw.now, luck)
      && luck.consume.Answered? && TokensMade(db.clients[ask.clientId], old(db.codes)[ask.code.value].scope, luck)
    // The code is used up by the first request that shows everything it must, and only then.
    ensures db.codes ==
      if CodeIsShown(crypto, db.clients, old(db.codes), ask, draw.now, luck) && !luck.consume.NotExecuted?
      then old(db.codes)[ask.code.value := old(db.codes)[ask.code.value].(used := true)]
      else old(db.codes)
    // What is issued is for the user, the scope and the session of the code; without a code
    // used up by this request, nothing.
    ensures if !CodeIsShown(crypto, db.clients, old(db.codes), ask, draw.now, luck)
      then db.access == old(db.access) && db.refresh == old(db.refresh)
      else
        var client, row := db.clients[ask.clientId], old(db.codes)[ask.code.value];
        && Issued(client, row.user, row.scope, row.session, draw, luck, luck.consume.Answered?,
                  old(db.access), old(db.refresh), db.access, db.refresh)
        && (answer.Some? ==>
              answer.value == TokenResponse(draw.access, if client.refreshGrant then Some(draw.refresh) else None,
                                            row.scope, "openid" in Words(row.scope)))
  {
    hide Run, RequestStep, CodeIsShown, TokensMade;
    var found;
    found, actions := PresentedCode(crypto, db, ask, draw, luck, s, r);
    if found.None? {
      return None, actions;
    }
    ghost var redeeming;
    answer, redeeming :=
      RedeemCode(crypto, db, ask, found.value.0, found.value.1, draw, luck, Run(crypto, s, actions), r);
    RunInTwoParts(crypto, s, actions, redeeming);
    actions := actions + redeeming;
  }

  // From the code that was read to the tokens for it.
  method RedeemCode(crypto: Crypto, db: Tables, ask: TokenRequest, client: Client, row: CodeRow, draw: Draw, luck: Luck,
                    ghost s: State, ghost r: nat)
    returns (answer: Option<TokenResponse>, ghost actions: seq<Action>)
    requires Sees(s, db, r, ask, Redeeming(client, row)) && ask.code.Some? && Unused(s, draw)
    modifies db`codes, db`access, db`refresh
    ensures Ended(Run(crypto, s, actions), db, r, ask, answer.Some?)
    ensures var code := ask.code.value;
      var unused := code in old(db.codes) && !old(db.codes)[code].used;
      && (answer.Some? <==> unused && luck.consume.Answered? && TokensMade(client, row.scope, luck))
      && db.codes == (if unused && !luck.consume.NotExecuted?
                      then old(db.codes)[code := old(db.codes)[code].(used := true)] else old(db.codes))
      && Issued(client, row.user, row.scope, row.session, draw, luck, unused && luck.consume.Answered?,
                old(db.access), old(db.refresh), db.access, db.refresh)
      && (answer.Some? ==>
            answer.value == TokenResponse(draw.access, if client.refreshGrant then Some(draw.refresh) else None,
                                          row.scope, "openid" in Words(row.scope)))
  {
    hide Run, RequestStep;
    RunNothing(crypto, s);
    actions := [ConsumeCode(r, luck.consume)];
    StepRun(crypto, s, [], actions[0], r, s);
    CodeConsumes(crypto, s, r, luck.consume);
    assert [] + actions == actions;
    ghost var now := Run(crypto, s, actions);
    var ok := db.UpdateAuthorizationCode(ask.code.value, luck.consume);
    if !ok {
      return None, actions;
    }
    ghost var issuing;
    answer, issuing :=
      GenerateTokens(crypto, db, ask, client, CodeGrantOf(ask.code.value, row), draw, luck, now, r);
    RunInTwoParts(crypto, s, actions, issuing);
    actions := actions + issuing;
  }

  function RevokeActions(r: nat, first: Fate, second: Fate): (result: seq<Action>) {
    if first.Answered? then [RevokeAccess(r, first), RevokeRefresh(r, second)] else [RevokeAccess(r, first)]
  }

  lemma AccessRevoked(s: State, clientId: string, user: string)
    ensures s.access - AccessOf(s, clientId, user) == WithoutAccess(s.access, clientId, user)
    ensures s.refresh - RefreshOf(s, clientId, user) == WithoutRefresh(s.refresh, clientId, user)
  {
  }

  lemma NothingDeleted(s: State)
    ensures s.codes - {} == s.codes && s.access - {} == s.access && s.refresh - {} == s.refresh
  {
  }

  lemma RevokeRun(crypto: Crypto, s: State, r: nat, first: Fate, second: Fate)
    requires At(s, r).Revoking? && r in s.requests
    ensures var pc := At(s, r);
      var s' := Run(crypto, s, RevokeActions(r, first, second));
      && s'.access == (if first.NotExecuted? then s.access else WithoutAccess(s.access, pc.clientId, pc.user))
      && s'.refresh == (if !first.Answered? || second.NotExecuted? then s.refresh
                        else WithoutRefresh(s.refresh, pc.clientId, pc.user))
      && s'.codes == s.codes && s'.clients == s.clients
      && r in s'.requests && s'.requests[r] == s.requests[r].(pc := Failed)
  {
    hide Run, RequestStep, AccessOf, RefreshOf, WithoutAccess, WithoutRefresh;
    var pc := At(s, r);
    RunNothing(crypto, s);
    StepRun(crypto, s, [], RevokeAccess(r, first), r, s);
    RevokeAccessIs(crypto, s, r, first);
    assert [] + [RevokeAccess(r, first)] == [RevokeAccess(r, first)];
    AccessRevoked(s, pc.clientId, pc.user);
    NothingDeleted(s);
    if first.Answered? {
      var now := Run(crypto, s, [RevokeAccess(r, first)]);
      StepRun(crypto, s, [RevokeAccess(r, first)], RevokeRefresh(r, second), r, now);
      RevokeRefreshIs(crypto, now, r, second);
      assert [RevokeAccess(r, first)] + [RevokeRefresh(r, second)] == RevokeActions(r, first, second);
      AccessRevoked(now, pc.clientId, pc.user);
      NothingDeleted(now);
    }
  }

  // A token that was rotated before: the tokens of that user with that client are deleted.
  method RevokeFamily(crypto: Crypto, db: Tables, ask: TokenRequest, clientId: string, user: string, luck: Luck,
                      ghost s: State, ghost r: nat)
    returns (ghost actions: seq<Action>)
    requires Sees(s, db, r, ask, Revoking(clientId, user))
    modifies db`access, db`refresh
    ensures Ended(Run(crypto, s, actions), db, r, ask, false)
    ensures db.access == if luck.revokeAccess.NotExecuted? then old(db.access)
      else map t | t in old(db.access)
                   && !(old(db.access)[t].clientId == clientId && old(db.access)[t].user == user) :: old(db.access)[t]
    ensures db.refresh == if !luck.revokeAccess.Answered? || luck.revokeRefresh.NotExecuted? then old(db.refresh)
      else map t | t in old(db.refresh)
                   && !(old(db.refresh)[t].clientId == clientId && old(db.refresh)[t].user == user)
               :: old(db.refresh)[t]
  {
    hide Run, RevokeActions;
    actions := RevokeActions(r, luck.revokeAccess, luck.revokeRefresh);
    RevokeRun(crypto, s, r, luck.revokeAccess, luck.revokeRefresh);
    var _ := db.RevokeClientTokensForUser(clientId, user, luck.revokeAccess, luck.revokeRefresh);
  }

  lemma RotateRun(crypto: Crypto, s: State, r: nat, consume: Fate, drop: Fate)
    requires At(s, r).Rotating? && r in s.requests && s.requests[r].ask.refreshToken.Some?
    ensures var s1 := ConsumeRefreshStep(s, r, At(s, r).client, At(s, r).token, consume);
      && Run(crypto, s, [ConsumeRefresh(r, consume)]) == s1
      && (At(s1, r).Dropping? ==>
            Run(crypto, s, [ConsumeRefresh(r, consume), DropAccess(r, drop)])
              == SetPc(if drop.NotExecuted? then s1 else Delete(s1, {}, {At(s1, r).token.access}, {}), r,
                       if drop.Answered? then AfterDrop(s1.requests[r].ask, At(s1, r).client, At(s1, r).token)
                       else Failed))
  {
    hide Run, RequestStep, AfterDrop, Delete, Consumed;
    RunNothing(crypto, s);
    StepRun(crypto, s, [], ConsumeRefresh(r, consume), r, s);
    ConsumeRefreshIs(crypto, s, r, consume);
    assert [] + [ConsumeRefresh(r, consume)] == [ConsumeRefresh(r, consume)];
    var s1 := ConsumeRefreshStep(s, r, At(s, r).client, At(s, r).token, consume);
    if At(s1, r).Dropping? {
      StepRun(crypto, s, [ConsumeRefresh(r, consume)], DropAccess(r, drop), r, s1);
      DropAccessIs(crypto, s1, r, drop);
      assert [ConsumeRefresh(r, consume)] + [DropAccess(r, drop)] == [ConsumeRefresh(r, consume), DropAccess(r, drop)];
    }
  }

  predicate WinsToken(s: State, token: Token, consume: Fate) {
    consume.Answered? && token in s.refresh && !s.refresh[token].used
  }

  function RotateActions(s: State, r: nat, token: Token, consume: Fate, drop: Fate): (actions: seq<Action>) {
    if WinsToken(s, token, consume) then [ConsumeRefresh(r, consume), DropAccess(r, drop)]
    else [ConsumeRefresh(r, consume)]
  }

  // The tables and the request after both statements of a rotation, or after the first.
  lemma RotateEnds(crypto: Crypto, s: State, r: nat, consume: Fate, drop: Fate)
    requires At(s, r).Rotating? && r in s.requests && s.requests[r].ask.refreshToken.Some?
    ensures var ask, client, row := s.requests[r].ask, At(s, r).client, At(s, r).token;
      var token := ask.refreshToken.value;
      var won := WinsToken(s, token, consume);
      var s' := Run(crypto, s, RotateActions(s, r, token, consume, drop));
      && s'.clients == s.clients && s'.codes == s.codes && s'.log.taken == s.log.taken
      && s'.access == (if won && !drop.NotExecuted? then s.access - {row.access} else s.access)
      && s'.refresh == (if !consume.NotExecuted? && token in s.refresh && !s.refresh[token].used
                        then s.refresh[token := s.refresh[token].(used := true)] else s.refresh)
      && r in s'.requests
      && s'.requests[r] == Request(ask, if won && drop.Answered? then AfterDrop(ask, client, row) else Failed)
  {
    hide Run, AfterDrop;
    RotateRun(crypto, s, r, consume, drop);
  }

  // From the read token to what may be issued for it.
  method RotateRefreshToken(crypto: Crypto, db: Tables, ask: TokenRequest, client: Client, row: RefreshRow, luck: Luck,
                            ghost s: State, ghost r: nat)
    returns (grant: Option<Grant>, ghost actions: seq<Action>)
    requires Sees(s, db, r, ask, Rotating(client, row)) && ask.refreshToken.Some?
    modifies db`access, db`refresh
    ensures Sees(Run(crypto, s, actions), db, r, ask, if grant.Some? then Granted(client, grant.value) else Failed)
    ensures Run(crypto, s, actions).log.taken == s.log.taken
    ensures var token := ask.refreshToken.value;
      var unused := token in old(db.refresh) && !old(db.refresh)[token].used;
      && (grant.Some? <==>
            && unused && luck.consume.Answered? && luck.drop.Answered?
            && (ask.scope.Some? ==> ScopeSet(ask.scope.value) <= ScopeSet(row.scope)))
      && (grant.Some? ==>
            grant.value == Grant(FromRefresh(token), row.user,
                                 if ask.scope.Some? then ask.scope.value else row.scope, row.session))
      // A scope that is too wide is noticed only after the token is used up and its access
      // token is gone.
      && db.refresh == (if unused && !luck.consume.NotExecuted?
                        then old(db.refresh)[token := old(db.refresh)[token].(used := true)] else old(db.refresh))
      && db.access == (if unused && luck.consume.Answered? && !luck.drop.NotExecuted?
                       then old(db.access) - {row.access} else old(db.access))
  {
    hide Run, RotateActions;
    RefreshNeverWidens(row.scope, ask.scope);
    var token := ask.refreshToken.value;
    RotateEnds(crypto, s, r, luck.consume, luck.drop);
    actions := RotateActions(s, r, token, luck.consume, luck.drop);
    var ok := db.ConsumeRefreshToken(token, luck.consume);
    if !ok {
      return None, actions;
    }
    if !luck.drop.NotExecuted? {
      db.access := db.access - {row.access};
    }
    if !luck.drop.Answered? {
      return None, actions;
    }
    var scope := CheckRefreshScope(row.scope, ask.scope);
    if scope.None? {
      return None, actions;
    }
    grant := Some(Grant(FromRefresh(token), row.user, scope.value, row.session));
  }

  // The client is known and may refresh, and presents a token of its own that has not expired.
  ghost predicate RefreshShown(crypto: Crypto, clients: map<string, Client>, refresh: map<Token, RefreshRow>,
                               ask: TokenRequest, now: int, luck: Luck) {
    && ClientShown(crypto, clients, ask, luck) && clients[ask.clientId].refreshGrant
    && luck.read && ask.refreshToken.Some? && ask.refreshToken.value in refresh
    && var row := refresh[ask.refreshToken.value];
    && row.clientId == ask.clientId && now <= row.expiresAt
  }

  // The client and the token it presents, if both may be looked at further.
  method PresentedToken(crypto: Crypto, db: Tables, ask: TokenRequest, draw: Draw, luck: Luck,
                        ghost s: State, ghost r: nat)
    returns (found: Option<(Client, RefreshRow)>, ghost actions: seq<Action>)
    requires Sees(s, db, r, ask, Arrived) && ask.grantType == "refresh_token"
    ensures found.Some? <==> RefreshShown(crypto, db.clients, db.refresh, ask, draw.now, luck)
    ensures found.Some? ==>
      && ask.clientId in db.clients && db.clients[ask.clientId].refreshGrant
      && ask.refreshToken.Some? && ask.refreshToken.value in db.refresh
      && found.value == (db.clients[ask.clientId], db.refresh[ask.refreshToken.value])
    ensures Run(crypto, s, actions).log.taken == s.log.taken
    ensures Sees(Run(crypto, s, actions), db, r, ask,
      if found.None? then Failed
      else if found.value.1.used then Revoking(found.value.1.clientId, found.value.1.user)
      else Rotating(found.value.0, found.value.1))
  {
    hide Run, RequestStep;
    var client;
    client, actions := AuthenticateClient(crypto, db, ask, luck, s, r);
    ghost var now := Run(crypto, s, actions);
    if client.None? || ask.refreshToken.None? || !client.value.refreshGrant {
      return None, actions;
    }
    StepRun(crypto, s, actions, ReadRefresh(r, draw.now, luck.read), r, now);
    ReadRefreshIs(crypto, now, r, draw.now, luck.read);
    actions := actions + [ReadRefresh(r, draw.now, luck.read)];
    if !luck.read || ask.refreshToken.value !in db.refresh {
      return None, actions;
    }
    var row := db.refresh[ask.refreshToken.value];
    if row.clientId != ask.clientId || row.expiresAt < draw.now {
      return None, actions;
    }
    found := Some((client.value, row));
  }

  method HandleRefreshTokenGrant(crypto: Crypto, db: Tables, ask: TokenRequest, draw: Draw, luck: Luck,
                                 ghost s: State, ghost r: nat)
    returns (answer: Option<TokenResponse>, ghost actions: seq<Action>)
    requires Sees(s, db, r, ask, Arrived) && ask.grantType == "refresh_token" && Unused(s, draw)
    modifies db`access, db`refresh
    ensures Ended(Run(crypto, s, actions), db, r, ask, answer.Some?)
    // There is an answer exactly if the client shows who it is and presents an unused token of
    // its own, in time, asks for nothing new, and every statement is answered.
    ensures answer.Some? <==>
      && RefreshShown(crypto, db.clients, old(db.refresh), ask, draw.now, luck)
      && var client, row := db.clients[ask.clientId], old(db.refresh)[ask.refreshToken.value];
      && !row.used && luck.consume.Answered? && luck.drop.Answered?
      && (ask.scope.Some? ==> ScopeSet(ask.scope.value) <= ScopeSet(row.scope))
      && TokensMade(client, if ask.scope.Some? then ask.scope.value else row.scope, luck)
    // The old token stays behind as used, its access token is gone, and there is one new
    // access token and one new refresh token for the same user and session, as far as the
    // statements were executed.
    ensures RefreshShown(crypto, db.clients, old(db.refresh), ask, draw.now, luck)
            && !old(db.refresh)[ask.refreshToken.value].used ==>
      Rotated(db.clients[ask.clientId], ask, draw, luck, old(db.access), old(db.refresh), db.access, db.refresh)
    ensures answer.Some? ==>
      var scope := if ask.scope.Some? then ask.scope.value else old(db.refresh)[ask.refreshToken.value].scope;
      answer.value == TokenResponse(draw.access, Some(draw.refresh), scope, "openid" in Words(scope))
    // Presented again, a used token takes every token of its client and user with it, and
    // nobody else's.
    ensures RefreshShown(crypto, db.clients, old(db.refresh), ask, draw.now, luck)
            && old(db.refresh)[ask.refreshToken.value].used ==>
      var row := old(db.refresh)[ask.refreshToken.value];
      && db.access == (if luck.revokeAccess.NotExecuted? then old(db.access)
                       else WithoutAccess(old(db.access), row.clientId, row.user))
      && db.refresh == (if !luck.revokeAccess.Answered? || luck.revokeRefresh.NotExecuted? then old(db.refresh)
                        else WithoutRefresh(old(db.refresh), row.clientId, row.user))
    ensures RefreshShown(crypto, db.clients, old(db.refresh), ask, draw.now, luck)
            && old(db.refresh)[ask.refreshToken.value].used
            && luck.revokeAccess.Answered? && luck.revokeRefresh.Answered? ==>
      && var row := old(db.refresh)[ask.refreshToken.value];
      && (forall t | t in db.access :: !(db.access[t].clientId == row.clientId && db.access[t].user == row.user))
      && (forall t | t in db.refresh :: !(db.refresh[t].clientId == row.clientId && db.refresh[t].user == row.user))
      && (forall t | t in old(db.access) ::
            t in db.access || (old(db.access)[t].clientId == row.clientId && old(db.access)[t].user == row.user))
      && (forall t | t in old(db.refresh) ::
            t in db.refresh || (old(db.refresh)[t].clientId == row.clientId && old(db.refresh)[t].user == row.user))
    // Whoever does not show that much touches nothing.
    ensures !RefreshShown(crypto, db.clients, old(db.refresh), ask, draw.now, luck) ==>
      db.access == old(db.access) && db.refresh == old(db.refresh)
  {
    hide Run, RequestStep, RefreshShown, TokensMade, ScopeSet;
    var found;
    found, actions := PresentedToken(crypto, db, ask, draw, luck, s, r);
    if found.None? {
      return None, actions;
    }
    var (client, row) := found.value;
    ghost var now := Run(crypto, s, actions);
    answer := None;
    ghost var more;
    if row.used {
      more := RevokeFamily(crypto, db, ask, row.clientId, row.user, luck, now, r);
    } else {
      answer, more := IssueAfterRotation(crypto, db, ask, client, row, draw, luck, now, r);
    }
    RunInTwoParts(crypto, s, actions, more);
    actions := actions + more;
  }

  // The tables after an unused token was presented.
  ghost predicate Rotated(client: Client, ask: TokenRequest, draw: Draw, luck: Luck,
                          access: map<Token, AccessRow>, refresh: map<Token, RefreshRow>,
                          access': map<Token, AccessRow>, refresh': map<Token, RefreshRow>)
    requires ask.refreshToken.Some? && ask.refreshToken.value in refresh
  {
    var token := ask.refreshToken.value;
    var row := refresh[token];
    var narrow := ask.scope.Some? ==> ScopeSet(ask.scope.value) <= ScopeSet(row.scope);
    Issued(client, row.user, if ask.scope.Some? then ask.scope.value else row.scope, row.session, draw, luck,
           luck.consume.Answered? && luck.drop.Answered? && narrow,
           if luck.consume.Answered? && !luck.drop.NotExecuted? then access - {row.access} else access,
           if luck.consume.NotExecuted? then refresh else refresh[token := row.(used := true)], access', refresh')
  }

  method IssueAfterRotation(crypto: Crypto, db: Tables, ask: TokenRequest, client: Client, row: RefreshRow, draw: Draw,
                            luck: Luck, ghost s: State, ghost r: nat)
    returns (answer: Option<TokenResponse>, ghost actions: seq<Action>)
    requires Sees(s, db, r, ask, Rotating(client, row)) && ask.refreshToken.Some? && Unused(s, draw)
    requires client.refreshGrant
    modifies db`access, db`refresh
    ensures Ended(Run(crypto, s, actions), db, r, ask, answer.Some?)
    ensures var scope := if ask.scope.Some? then ask.scope.value else row.scope;
      && (answer.Some? <==>
            && ask.refreshToken.value in old(db.refresh) && !old(db.refresh)[ask.refreshToken.value].used
            && luck.consume.Answered? && luck.drop.Answered?
            && (ask.scope.Some? ==> ScopeSet(ask.scope.value) <= ScopeSet(row.scope))
            && TokensMade(client, scope, luck))
      && (answer.Some? ==>
            answer.value == TokenResponse(draw.access, Some(draw.refresh), scope, "openid" in Words(scope)))
    ensures ask.refreshToken.value in old(db.refresh) && old(db.refresh)[ask.refreshToken.value] == row
            && !row.used ==>
      Rotated(client, ask, draw, luck, old(db.access), old(db.refresh), db.access, db.refresh)
  {
    hide Run, RequestStep;
    var grant;
    grant, actions := RotateRefreshToken(crypto, db, ask, client, row, luck, s, r);
    if grant.None? {
      return None, actions;
    }
    ghost var issuing;
    answer, issuing := GenerateTokens(crypto, db, ask, client, grant.value, draw, luck, Run(crypto, s, actions), r);
    RunInTwoParts(crypto, s, actions, issuing);
    actions := actions + issuing;
  }

  // create_authorization_code: refused, or stored under a bearer never used before. When the
  // answer of the insert is lost the code is stored, but nobody is told.
  method CreateAuthorizationCode(crypto: Crypto, db: Tables, request: AuthorizeRequest, user: string, session: string,
                                 code: Token, now: int, readable: bool, fate: Fate, ghost s: State)
    returns (ok: bool, ghost actions: seq<Action>)
    requires s.clients == db.clients && s.codes == db.codes && code !in s.log.taken
    modifies db`codes
    ensures Run(crypto, s, actions).codes == db.codes
    ensures var granted := readable && MayAuthorize(db.clients, request);
      && (ok <==> granted && fate.Answered?)
      && (!granted || fate.NotExecuted? ==> db.codes == old(db.codes))
      && (granted && !fate.NotExecuted? ==> exists scope ::
            && Grants(db.clients[request.clientId].allowedScopes, request.scope, scope)
            && db.codes == old(db.codes)[code :=
                 CodeRow(request.clientId, user, request.redirectUri, scope, request.challenge, request.challengeMethod,
                         Some(session), false, now + 600)])
  {
    hide Run, RequestStep, Grants;
    if request.clientId in db.clients {
      AsksForCodeIff(Words(request.responseType), db.clients[request.clientId].codeResponse);
    }
    hide AsksForCode;
    RunNothing(crypto, s);
    actions := [];
    if !readable || request.clientId !in db.clients || !AuthorizeHolds(db.clients[request.clientId], request) {
      return false, actions;
    }
    var scope := ResolveScope(db.clients[request.clientId].allowedScopes, request.scope);
    if scope.None? || fate.NotExecuted? {
      return false, actions;
    }
    actions := [Authorize(code, request, user, session, scope.value, now)];
    RunOneMore(crypto, s, [], actions[0]);
    assert [] + actions == actions;
    db.codes := db.codes[code := NewCode(request, user, session, scope.value, now)];
    ok := fate.Answered?;
  }

  // The client is there and active, and everything asked for is allowed to it.
  ghost predicate MayAuthorize(clients: map<string, Client>, request: AuthorizeRequest) {
    && request.clientId in clients
    && var client := clients[request.clientId];
    && client.isActive && client.clientId == request.clientId && request.redirectUri in client.redirectUris
    && (forall w :: w in Words(request.responseType) ==> w == "code" && client.codeResponse)
    && (client.requirePkce ==> request.challenge.Some?)
    && (request.challenge.Some? ==> request.challengeMethod == Some("S256"))
    && forall w ::
         w in Words(if request.scope.Some? then request.scope.value else "openid") ==> w in client.allowedScopes
  }
}
