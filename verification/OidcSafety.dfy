// What holds of every run of the OIDC grants: one answer per code and per refresh token,
// one live refresh token per code, and scopes that never grow.
module OidcSafety {
  import opened Base
  import opened Scopes
  import opened Oidc

  lemma StartIsOk(crypto: Crypto)
    ensures Inv(crypto, START)
  {
  }

  lemma CodeReadIsOk(crypto: Crypto, h: History, codes: map<Token, CodeRow>, ask: TokenRequest, pc: Pc, now: int)
    requires CodesInv(h, codes)
    ensures pc.CodeClient? && ClientHolds(crypto, pc.client, ask) ==>
      var next := AfterReadCode(crypto, codes, ask, pc.client, now);
      next.Failed? || (next.Redeeming? && forall r :: PcOk(crypto, h, r, ask, next))
  {
    hide ClientHolds, PkceHolds;
    if ask.code.Some? && ask.code.value in codes {
      assert CodeRowOk(h, ask.code.value, codes[ask.code.value]);
    }
  }

  lemma RefreshReadIsOk(crypto: Crypto, h: History, refresh: map<Token, RefreshRow>, r: nat, ask: TokenRequest, pc: Pc,
                        now: int)
    requires RefreshInv(h, refresh)
    ensures pc.RefreshClient? && ClientHolds(crypto, pc.client, ask) ==>
      PcOk(crypto, h, r, ask, AfterReadRefresh(refresh, ask, pc.client, now))
  {
    hide ClientHolds;
    if ask.refreshToken.Some? && ask.refreshToken.value in refresh {
      assert RefreshRowOk(h, ask.refreshToken.value, refresh[ask.refreshToken.value]);
    }
  }

  lemma AuthenticatedIsOk(crypto: Crypto, h: History, clients: map<string, Client>, r: nat, ask: TokenRequest)
    ensures PcOk(crypto, h, r, ask, AfterAuthenticate(crypto, clients, ask))
    ensures !MayHaveMinted(AfterAuthenticate(crypto, clients, ask)) || AfterAuthenticate(crypto, clients, ask).Failed?
  {
    hide ClientHolds;
  }

  // A request that has not minted yet may go wherever what it has in hand lets it go.
  lemma MoveKeepsInv(crypto: Crypto, s: State, r: nat, pc: Pc)
    requires Inv(crypto, s) && r in s.requests
    requires !MayHaveMinted(s.requests[r].pc) || (pc.Failed? && !s.requests[r].pc.Responded?)
    requires PcOk(crypto, s.log, r, s.requests[r].ask, pc)
    ensures Inv(crypto, SetPc(s, r, pc))
  {
    hide Inv, PcOk;
    OkOf(crypto, s, r);
    SetPcKeepsInv(crypto, s, r, pc);
  }

  lemma PcOf(crypto: Crypto, s: State, r: nat)
    requires Inv(crypto, s) && r in s.requests
    ensures PcOk(crypto, s.log, r, s.requests[r].ask, s.requests[r].pc)
  {
    hide Inv, PcOk;
    OkOf(crypto, s, r);
  }

  lemma AuthenticateKeepsInv(crypto: Crypto, s: State, r: nat)
    requires Inv(crypto, s) && At(s, r).Arrived? && r in s.requests
    ensures Inv(crypto, SetPc(s, r, AfterAuthenticate(crypto, s.clients, s.requests[r].ask)))
  {
    hide Inv, PcOk, AfterAuthenticate;
    AuthenticatedIsOk(crypto, s.log, s.clients, r, s.requests[r].ask);
    MoveKeepsInv(crypto, s, r, AfterAuthenticate(crypto, s.clients, s.requests[r].ask));
  }

  lemma ReadCodeKeepsInv(crypto: Crypto, s: State, r: nat, now: int)
    requires Inv(crypto, s) && At(s, r).CodeClient? && r in s.requests
    ensures Inv(crypto, SetPc(s, r, AfterReadCode(crypto, s.codes, s.requests[r].ask, At(s, r).client, now)))
  {
    hide HistoryInv, CodesInv, RefreshInv, RequestsInv, ClientHolds, AfterReadCode;
    PcOf(crypto, s, r);
    CodeReadIsOk(crypto, s.log, s.codes, s.requests[r].ask, At(s, r), now);
    MoveKeepsInv(crypto, s, r, AfterReadCode(crypto, s.codes, s.requests[r].ask, At(s, r).client, now));
  }

  lemma ReadRefreshKeepsInv(crypto: Crypto, s: State, r: nat, now: int)
    requires Inv(crypto, s) && At(s, r).RefreshClient? && r in s.requests
    ensures Inv(crypto, SetPc(s, r, AfterReadRefresh(s.refresh, s.requests[r].ask, At(s, r).client, now)))
  {
    hide HistoryInv, CodesInv, RefreshInv, RequestsInv, ClientHolds, AfterReadRefresh;
    PcOf(crypto, s, r);
    RefreshReadIsOk(crypto, s.log, s.refresh, r, s.requests[r].ask, At(s, r), now);
    MoveKeepsInv(crypto, s, r, AfterReadRefresh(s.refresh, s.requests[r].ask, At(s, r).client, now));
  }

  lemma FailKeepsInv(crypto: Crypto, s: State, r: nat)
    requires Inv(crypto, s) && r in s.requests && !At(s, r).Responded?
    ensures Inv(crypto, SetPc(s, r, Failed))
  {
    hide Inv;
    MoveKeepsInv(crypto, s, r, Failed);
  }

  lemma RevokeKeepsInv(crypto: Crypto, s: State, r: nat, gone: bool, access: set<Token>, refresh: set<Token>, pc: Pc)
    requires Inv(crypto, s) && r in s.requests && (At(s, r).Revoking? || At(s, r).RevokingRefresh?)
    requires pc.RevokingRefresh? || pc.Failed?
    ensures Inv(crypto, SetPc(if gone then Delete(s, {}, access, refresh) else s, r, pc))
  {
    hide Inv;
    DeleteKeepsInv(crypto, s, {}, access, refresh);
    MoveKeepsInv(crypto, if gone then Delete(s, {}, access, refresh) else s, r, pc);
  }

  lemma LoadUserKeepsInv(crypto: Crypto, s: State, r: nat, now: int)
    requires Inv(crypto, s) && At(s, r).Granted? && r in s.requests
    ensures Inv(crypto, SetPc(s, r, Active(At(s, r).client, At(s, r).grant, now)))
  {
    hide Inv, HandOk;
    PcOf(crypto, s, r);
    MoveKeepsInv(crypto, s, r, Active(At(s, r).client, At(s, r).grant, now));
  }

  lemma AuthorizeKeepsInv(crypto: Crypto, s: State, a: Action)
    requires Inv(crypto, s) && a.Authorize?
    ensures Inv(crypto, Step(crypto, s, a))
  {
    hide Inv, AddCode, Grants, AuthorizeHolds;
    if CanAuthorize(s, a.code, a.request, a.scope) {
      var row := NewCode(a.request, a.user, a.session, a.scope, a.now);
      AddCodeKeepsInv(crypto, s, a.code, Issue(row, s.clients[a.request.clientId], a.request));
    }
  }

  lemma ClientsKeepInv(crypto: Crypto, s: State, clients: map<string, Client>)
    requires Inv(crypto, s)
    ensures Inv(crypto, s.(clients := clients))
  {
    hide HistoryInv, CodesInv, RefreshInv, RequestsInv;
  }

  lemma RequestStepKeepsInv(crypto: Crypto, s: State, a: Action)
    requires Inv(crypto, s) && !a.SetClients? && !a.DeleteRows? && !a.Authorize?
    ensures Inv(crypto, RequestStep(crypto, s, a))
  {
    hide Inv, AfterAuthenticate, AfterReadCode, AfterReadRefresh, ConsumeCodeStep, ConsumeRefreshStep, AfterDrop,
         SaveAccessStep, SaveRefreshStep, RespondStep, SetPc, Delete, AccessOf, RefreshOf;
    if a.r in s.requests {
      var pc := s.requests[a.r].pc;
      if !pc.Responded? {
        FailKeepsInv(crypto, s, a.r);
      }
      match a
      case Authenticate(r, _) => if pc.Arrived? { AuthenticateKeepsInv(crypto, s, r); }
      case ReadCode(r, now, _) => if pc.CodeClient? { ReadCodeKeepsInv(crypto, s, r, now); }
      case ConsumeCode(r, fate) =>
        if pc.Redeeming? && s.requests[r].ask.code.Some? { ConsumeCodeKeepsInv(crypto, s, r, fate); }
      case ReadRefresh(r, now, _) => if pc.RefreshClient? { ReadRefreshKeepsInv(crypto, s, r, now); }
      case RevokeAccess(r, fate) =>
        if pc.Revoking? {
          RevokeKeepsInv(crypto, s, r, !fate.NotExecuted?, AccessOf(s, pc.clientId, pc.user), {},
                         if fate.Answered? then RevokingRefresh(pc.clientId, pc.user) else Failed);
        }
      case RevokeRefresh(r, fate) =>
        if pc.RevokingRefresh? {
          RevokeKeepsInv(crypto, s, r, !fate.NotExecuted?, {}, RefreshOf(s, pc.clientId, pc.user), Failed);
        }
      case ConsumeRefresh(r, fate) =>
        if pc.Rotating? && s.requests[r].ask.refreshToken.Some? { ConsumeRefreshKeepsInv(crypto, s, r, fate); }
      case DropAccess(r, fate) =>
        if pc.Dropping? && s.requests[r].ask.refreshToken.Some? { DropKeepsInv(crypto, s, r, fate); }
      case LoadUser(r, now, _) => if pc.Granted? { LoadUserKeepsInv(crypto, s, r, now); }
      case SaveAccess(r, token, fate) => if pc.Active? { AccessSavedKeepsInv(crypto, s, r, token, fate); }
      case SaveRefresh(r, token, fate) => if pc.AccessSaved? { MintKeepsInv(crypto, s, r, token, fate); }
      case Respond(r, idToken) => if pc.Ready? { RespondKeepsInv(crypto, s, r, idToken); }
      case _ =>
    }
  }

  lemma StepKeepsInv(crypto: Crypto, s: State, a: Action)
    requires Inv(crypto, s)
    ensures Inv(crypto, Step(crypto, s, a))
  {
    hide Inv, RequestStep, SetPc, Delete;
    match a
    case SetClients(clients) => ClientsKeepInv(crypto, s, clients);
    case DeleteRows(codes, access, refresh) => DeleteKeepsInv(crypto, s, codes, access, refresh);
    case Authorize(_, _, _, _, _, _) => AuthorizeKeepsInv(crypto, s, a);
    case Arrive(r, ask) => if r !in s.requests { ArriveKeepsInv(crypto, s, r, ask); }
    case Crash(r) => if r in s.requests && !At(s, r).Responded? { FailKeepsInv(crypto, s, r); }
    case _ => RequestStepKeepsInv(crypto, s, a);
  }

  lemma {:induction false} RunKeepsInv(crypto: Crypto, s: State, actions: seq<Action>)
    requires Inv(crypto, s)
    ensures Inv(crypto, Run(crypto, s, actions))
    decreases |actions|
  {
    hide Inv, Step;
    if actions != [] {
      StepKeepsInv(crypto, s, actions[0]);
      RunKeepsInv(crypto, Step(crypto, s, actions[0]), actions[1..]);
    }
  }

  // ---------------------------------------------------------------------------
  // The theorems.

  // However requests interleave, a code or a refresh token is answered at most once.
  lemma OneAnswerPerSource(crypto: Crypto, actions: seq<Action>, r: nat, q: nat)
    requires var h := Run(crypto, START, actions).log; r in h.responses && q in h.responses
    requires var h := Run(crypto, START, actions).log; h.responses[r].grant.source == h.responses[q].grant.source
    ensures r == q
  {
    hide Run, HistoryInv, CodesInv, RefreshInv, ClientHolds, GrantOk;
    var s := Run(crypto, START, actions);
    StartIsOk(crypto);
    RunKeepsInv(crypto, START, actions);
    OkOf(crypto, s, r);
    OkOf(crypto, s, q);
  }

  // What a code is worth: an answer goes to the client and the redirect URI it was issued
  // for; with a challenge, only for the verifier behind it; without one, never to a public
  // client. The answer is for the user and the scope the code was issued with.
  lemma CodeAnsweredAsIssued(crypto: Crypto, actions: seq<Action>, r: nat)
    requires var h := Run(crypto, START, actions).log; r in h.responses && h.responses[r].grant.source.FromCode?
    ensures var s := Run(crypto, START, actions);
      var answer := s.log.responses[r];
      var code := answer.grant.source.code;
      && r in s.requests && code in s.log.issued
      && var ask, row := s.requests[r].ask, s.log.issued[code].row;
      && ask.code == Some(code) && answer.client.clientId == ask.clientId == row.clientId
      && ask.redirectUri == Some(row.redirectUri)
      && answer.grant.user == row.user && answer.grant.scope == row.scope
      && (row.challenge.Some? ==>
            ask.verifier.Some? && 43 <= |ask.verifier.value| <= 128
            && crypto.s256(ask.verifier.value) == row.challenge.value && row.challengeMethod == Some(S256))
      && (row.challenge.None? ==>
            !answer.client.isPublic && ask.secret.Some?
            && crypto.secretMatches(answer.client.secretHash, ask.secret.value))
  {
    hide Run, HistoryInv, CodesInv, RefreshInv, Won;
    StartIsOk(crypto);
    RunKeepsInv(crypto, START, actions);
    OkOf(crypto, Run(crypto, START, actions), r);
  }

  // Two refresh tokens with the same parent are the same token.
  lemma OneSuccessor(h: History, t: Token, u: Token)
    requires BirthsInv(h) && t in h.born && u in h.born && h.born[t].source == h.born[u].source
    ensures t == u
  {
    hide Inherits;
    assert BirthOk(h, t, h.born[t]) && BirthOk(h, u, h.born[u]);
  }

  // The tokens of one code form a line: one for each generation.
  lemma {:induction false} OnePerGeneration(h: History, t: Token, u: Token)
    requires BirthsInv(h) && t in h.born && u in h.born
    requires h.born[t].code == h.born[u].code && h.born[t].generation == h.born[u].generation
    ensures t == u
    decreases h.born[t].generation
  {
    hide Inherits;
    assert BirthOk(h, t, h.born[t]) && BirthOk(h, u, h.born[u]);
    if h.born[t].generation > 0 {
      OnePerGeneration(h, h.born[t].source.token, h.born[u].source.token);
    }
    OneSuccessor(h, t, u);
  }

  // An older generation of the same code has been consumed.
  lemma {:induction false} OlderIsConsumed(h: History, t: Token, u: Token)
    requires BirthsInv(h) && t in h.born && u in h.born
    requires h.born[t].code == h.born[u].code && h.born[t].generation < h.born[u].generation
    ensures FromRefresh(t) in h.winner
    decreases h.born[u].generation
  {
    hide Inherits;
    assert BirthOk(h, t, h.born[t]) && BirthOk(h, u, h.born[u]);
    var parent := h.born[u].source.token;
    if h.born[parent].generation == h.born[t].generation {
      OnePerGeneration(h, t, parent);
    } else {
      OlderIsConsumed(h, t, parent);
    }
  }

  // Whatever the interleaving, each refresh token has at most one successor, and at most
  // one unused one descends from a code.
  lemma OneLiveTokenPerCode(crypto: Crypto, actions: seq<Action>, t: Token, u: Token)
    requires var s := Run(crypto, START, actions);
      && t in s.refresh && u in s.refresh && !s.refresh[t].used && !s.refresh[u].used
    ensures var s := Run(crypto, START, actions);
      && t in s.log.born && u in s.log.born && (s.log.born[t].code == s.log.born[u].code ==> t == u)
  {
    hide Run, BirthOk, BearersInv, CodesInv, RequestsInv;
    var s := Run(crypto, START, actions);
    StartIsOk(crypto);
    RunKeepsInv(crypto, START, actions);
    assert RefreshRowOk(s.log, t, s.refresh[t]) && RefreshRowOk(s.log, u, s.refresh[u]);
    var h := s.log;
    if h.born[t].code == h.born[u].code {
      if h.born[t].generation < h.born[u].generation {
        OlderIsConsumed(h, t, u);
      } else if h.born[u].generation < h.born[t].generation {
        OlderIsConsumed(h, u, t);
      } else {
        OnePerGeneration(h, t, u);
      }
    }
  }

  lemma OneSuccessorInEveryRun(crypto: Crypto, actions: seq<Action>, t: Token, u: Token)
    requires var h := Run(crypto, START, actions).log;
      t in h.born && u in h.born && h.born[t].source == h.born[u].source
    ensures t == u
  {
    hide Run, BirthOk, BearersInv, CodesInv, RefreshInv, RequestsInv;
    StartIsOk(crypto);
    RunKeepsInv(crypto, START, actions);
    OneSuccessor(Run(crypto, START, actions).log, t, u);
  }

  // Along any chain of refreshes the scope only shrinks, and client and user stay; the
  // scope of the code is within what the client was allowed when it was issued, or is the
  // bare `openid` given for a blank request.
  lemma ScopesNeverGrow(crypto: Crypto, actions: seq<Action>, t: Token)
    requires t in Run(crypto, START, actions).log.born
    ensures var h := Run(crypto, START, actions).log;
      && var b := h.born[t];
      && b.code in h.issued
      && var issue := h.issued[b.code];
      && Inherits(b.row, issue.row.clientId, issue.row.user, issue.row.scope)
      && (b.source.FromRefresh? ==>
            b.source.token in h.born
            && var parent := h.born[b.source.token].row; Inherits(b.row, parent.clientId, parent.user, parent.scope))
      && ((forall w | w in ScopeSet(b.row.scope) :: w in issue.client.allowedScopes)
          || (issue.row.scope == OPENID && issue.request.scope.Some? && Words(issue.request.scope.value) == []))
  {
    hide Run, CodesInv, RefreshInv, RequestsInv, AuthorizeHolds, Grants;
    var h := Run(crypto, START, actions).log;
    StartIsOk(crypto);
    RunKeepsInv(crypto, START, actions);
    assert BirthOk(h, t, h.born[t]);
    var issue := h.issued[h.born[t].code];
    assert IssueOk(issue);
    GrantedWithinAllowed(issue.client.allowedScopes, issue.request.scope, issue.row.scope);
  }

  // The same for what is answered; and the refresh token in the answer, if any, is the
  // successor of what was presented.
  lemma AnswerWithinSource(crypto: Crypto, actions: seq<Action>, r: nat)
    requires r in Run(crypto, START, actions).log.responses
    ensures var s := Run(crypto, START, actions);
      var answer := s.log.responses[r];
      && r in s.requests && MintedFor(s.log, answer.refresh, answer.grant.source)
      && match answer.grant.source
         case FromCode(c) =>
           && c in s.log.issued && s.requests[r].ask.code == Some(c)
           && answer.grant.user == s.log.issued[c].row.user && answer.grant.scope == s.log.issued[c].row.scope
         case FromRefresh(t) =>
           && t in s.log.born && s.requests[r].ask.refreshToken == Some(t)
           && answer.client.clientId == s.log.born[t].row.clientId && answer.grant.user == s.log.born[t].row.user
           && ScopeSet(answer.grant.scope) <= ScopeSet(s.log.born[t].row.scope)
  {
    hide Run, HistoryInv, CodesInv, RefreshInv, Won, CodeMatches;
    StartIsOk(crypto);
    RunKeepsInv(crypto, START, actions);
    OkOf(crypto, Run(crypto, START, actions), r);
  }
}
