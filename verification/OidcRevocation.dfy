// Reuse of a rotated refresh token revokes its family (src/services/oidc.rs): both deletes
// empty the tables of that user with that client. When exactly that is final.
module OidcRevocation {
  import opened Base
  import opened Scopes
  import opened Oidc
  import opened OidcSafety
  import OidcService

  predicate BelongsTo(row: RefreshRow, clientId: string, user: string) {
    row.clientId == clientId && row.user == user
  }

  // The code that a source goes back to.
  function RootOf(h: History, source: Source): (code: Token) {
    match source
    case FromCode(c) => c
    case FromRefresh(t) => if t in h.born then h.born[t].code else t
  }

  // A request that has consumed its source and may still save a refresh token for this
  // client and user.
  predicate Carries(ask: TokenRequest, pc: Pc, clientId: string, user: string) {
    match pc
    case Dropping(client, row) =>
      client.refreshGrant && client.clientId == clientId && row.user == user
      && ask.refreshToken.Some? && RefreshScope(row.scope, ask.scope).Some?
    case Granted(client, g) => client.refreshGrant && client.clientId == clientId && g.user == user
    case Active(client, g, _) => client.refreshGrant && client.clientId == clientId && g.user == user
    case AccessSaved(client, g, _, _) => client.refreshGrant && client.clientId == clientId && g.user == user
    case _ => false
  }

  function SourceOf(ask: TokenRequest, pc: Pc): (source: Source)
    requires pc.Granted? || pc.Active? || pc.AccessSaved? || (pc.Dropping? && ask.refreshToken.Some?)
  {
    if pc.Dropping? then FromRefresh(ask.refreshToken.value) else pc.grant.source
  }

  ghost predicate InFlight(s: State, clientId: string, user: string) {
    exists r :: r in s.requests && Carries(s.requests[r].ask, s.requests[r].pc, clientId, user)
  }

  // An unused refresh token of this client and user is stored that descends from a code in
  // this set.
  ghost predicate FamilyStored(s: State, roots: set<Source>, clientId: string, user: string) {
    exists t ::
      && t in s.refresh && !s.refresh[t].used && BelongsTo(s.refresh[t], clientId, user)
      && t in s.log.born && FromCode(s.log.born[t].code) in roots
  }

  // ---------------------------------------------------------------------------
  // Without a request in flight the family stays gone.

  ghost predicate RowsGone(h: History, refresh: map<Token, RefreshRow>, roots: set<Source>, clientId: string,
                           user: string) {
    forall t | t in refresh && t in h.born && BelongsTo(refresh[t], clientId, user) ::
      FromCode(h.born[t].code) !in roots
  }

  ghost predicate PcGone(h: History, roots: set<Source>, ask: TokenRequest, pc: Pc, clientId: string, user: string) {
    Carries(ask, pc, clientId, user) ==> FromCode(RootOf(h, SourceOf(ask, pc))) !in roots
  }

  ghost predicate RequestsGone(h: History, requests: map<nat, Request>, roots: set<Source>, clientId: string,
                               user: string) {
    forall r | r in requests :: PcGone(h, roots, requests[r].ask, requests[r].pc, clientId, user)
  }

  ghost predicate Gone(s: State, roots: set<Source>, clientId: string, user: string) {
    && roots <= s.log.winner.Keys
    && RowsGone(s.log, s.refresh, roots, clientId, user)
    && RequestsGone(s.log, s.requests, roots, clientId, user)
  }

  lemma SetPcStaysGone(s: State, roots: set<Source>, clientId: string, user: string, r: nat, pc: Pc)
    requires Gone(s, roots, clientId, user) && r in s.requests
    requires PcGone(s.log, roots, s.requests[r].ask, pc, clientId, user)
    ensures Gone(SetPc(s, r, pc), roots, clientId, user)
  {
    hide RowsGone, PcGone;
  }

  lemma DeleteStaysGone(s: State, roots: set<Source>, clientId: string, user: string,
                        codes: set<Token>, access: set<Token>, refresh: set<Token>)
    requires Gone(s, roots, clientId, user)
    ensures Gone(Delete(s, codes, access, refresh), roots, clientId, user)
  {
    hide RequestsGone;
  }

  // History that knows the same tokens says the same of every source.
  lemma SameBirthsStayGone(s: State, s': State, roots: set<Source>, clientId: string, user: string)
    requires Gone(s, roots, clientId, user) && s'.log.born == s.log.born && s'.requests == s.requests
    requires s.log.winner.Keys <= s'.log.winner.Keys
    requires forall t | t in s'.refresh ::
      t in s.refresh && s'.refresh[t].(used := false) == s.refresh[t].(used := false)
    ensures Gone(s', roots, clientId, user)
  {
    forall t | t in s'.refresh && t in s'.log.born && BelongsTo(s'.refresh[t], clientId, user)
      ensures FromCode(s'.log.born[t].code) !in roots
    {
      assert s'.refresh[t].(used := false).user == s.refresh[t].(used := false).user;
      assert BelongsTo(s.refresh[t], clientId, user);
    }
    hide RowsGone, Carries;
    forall r | r in s'.requests ensures PcGone(s'.log, roots, s'.requests[r].ask, s'.requests[r].pc, clientId, user) {
      assert PcGone(s.log, roots, s.requests[r].ask, s.requests[r].pc, clientId, user);
    }
  }

  lemma GoneOf(s: State, roots: set<Source>, clientId: string, user: string, r: nat)
    requires Gone(s, roots, clientId, user) && r in s.requests
    ensures PcGone(s.log, roots, s.requests[r].ask, s.requests[r].pc, clientId, user)
  {
    hide RowsGone, PcGone;
  }

  lemma ConsumeCodeStaysGone(s: State, roots: set<Source>, clientId: string, user: string, r: nat, fate: Fate)
    requires Gone(s, roots, clientId, user) && At(s, r).Redeeming? && r in s.requests && s.requests[r].ask.code.Some?
    requires forall c | c in s.codes && !s.codes[c].used :: FromCode(c) !in s.log.winner
    ensures Gone(ConsumeCodeStep(s, r, At(s, r).client, At(s, r).code, fate), roots, clientId, user)
  {
    hide RowsGone, RequestsGone;
    var code := s.requests[r].ask.code.value;
    var s1 := if fate.NotExecuted? then s else MarkCodeUsed(s, code, r);
    SameBirthsStayGone(s, s1, roots, clientId, user);
    var won := fate.Answered? && code in s.codes && !s.codes[code].used;
    SetPcStaysGone(s1, roots, clientId, user, r,
                   if won then Granted(At(s, r).client, CodeGrantOf(code, At(s, r).code)) else Failed);
  }

  lemma ConsumeRefreshStaysGone(s: State, roots: set<Source>, clientId: string, user: string, r: nat, fate: Fate)
    requires Gone(s, roots, clientId, user) && At(s, r).Rotating? && r in s.requests
    requires s.requests[r].ask.refreshToken.Some?
    requires var t := s.requests[r].ask.refreshToken.value;
      t in s.refresh ==> t in s.log.born && s.refresh[t].(used := false) == At(s, r).token.(used := false)
    requires At(s, r).token.clientId == At(s, r).client.clientId
    ensures Gone(ConsumeRefreshStep(s, r, At(s, r).client, At(s, r).token, fate), roots, clientId, user)
  {
    hide RequestsGone, RefreshScope;
    var token := s.requests[r].ask.refreshToken.value;
    var s1 := if fate.NotExecuted? then s else MarkRefreshUsed(s, token, r);
    SameBirthsStayGone(s, s1, roots, clientId, user);
    var won := fate.Answered? && token in s.refresh && !s.refresh[token].used;
    if won {
      assert s.refresh[token].(used := false).user == At(s, r).token.(used := false).user;
      assert s.refresh[token].(used := false).clientId == At(s, r).token.(used := false).clientId;
    }
    SetPcStaysGone(s1, roots, clientId, user, r, if won then Dropping(At(s, r).client, At(s, r).token) else Failed);
  }

  lemma DropStaysGone(s: State, roots: set<Source>, clientId: string, user: string, r: nat, fate: Fate)
    requires Gone(s, roots, clientId, user) && At(s, r).Dropping? && r in s.requests
    requires s.requests[r].ask.refreshToken.Some?
    ensures var pc := At(s, r);
      Gone(SetPc(if fate.NotExecuted? then s else Delete(s, {}, {pc.token.access}, {}), r,
                 if fate.Answered? then AfterDrop(s.requests[r].ask, pc.client, pc.token) else Failed),
           roots, clientId, user)
  {
    hide RowsGone, RequestsGone, RefreshScope;
    var pc, ask := At(s, r), s.requests[r].ask;
    GoneOf(s, roots, clientId, user, r);
    DeleteStaysGone(s, roots, clientId, user, {}, {pc.token.access}, {});
    SetPcStaysGone(if fate.NotExecuted? then s else Delete(s, {}, {pc.token.access}, {}), roots, clientId, user, r,
                   if fate.Answered? then AfterDrop(ask, pc.client, pc.token) else Failed);
  }

  // A new birth changes nothing for the sources known before it.
  lemma RootStays(h: History, h': History, source: Source)
    requires Known(h, source) && forall t | t in h.born :: t in h'.born && h'.born[t] == h.born[t]
    ensures RootOf(h', source) == RootOf(h, source)
  {
  }

  lemma SourceIsKnown(crypto: Crypto, s: State, r: nat, clientId: string, user: string)
    requires Inv(crypto, s) && r in s.requests
    ensures Carries(s.requests[r].ask, s.requests[r].pc, clientId, user) ==>
      Known(s.log, SourceOf(s.requests[r].ask, s.requests[r].pc))
  {
    hide Inv, ClientHolds, CodeMatches, RefreshScope;
    OkOf(crypto, s, r);
  }

  lemma MintRowsGone(s: State, roots: set<Source>, clientId: string, user: string, r: nat, token: Token)
    requires RowsGone(s.log, s.refresh, roots, clientId, user) && At(s, r).AccessSaved? && r in s.requests
    requires PcGone(s.log, roots, s.requests[r].ask, At(s, r), clientId, user) && At(s, r).client.refreshGrant
    requires token !in s.log.born && Known(s.log, At(s, r).grant.source)
    ensures RowsGone(Minted(s.log, r, At(s, r), token), s.refresh[token := NewRefresh(At(s, r))], roots, clientId, user)
  {
  }

  lemma MintStaysGone(crypto: Crypto, s: State, roots: set<Source>, clientId: string, user: string, r: nat,
                      token: Token, fate: Fate)
    requires Gone(s, roots, clientId, user) && Inv(crypto, s) && At(s, r).AccessSaved? && r in s.requests
    ensures Gone(SaveRefreshStep(s, r, At(s, r), token, fate), roots, clientId, user)
  {
    hide Inv, RowsGone, RequestsGone, PcGone, NewBirth, NewRefresh;
    var pc, s' := At(s, r), SaveRefreshStep(s, r, At(s, r), token, fate);
    GoneOf(s, roots, clientId, user, r);
    NotCarried(s.log, roots, s.requests[r].ask, clientId, user);
    if pc.client.refreshGrant && !fate.NotExecuted? && token !in s.log.taken {
      HandIsKnown(crypto, s, r);
      TakenHolds(crypto, s, token);
      MintRowsGone(s, roots, clientId, user, r, token);
      MintRequestsGone(crypto, s, roots, clientId, user, r, token, s'.requests[r].pc);
    } else {
      SetPcStaysGone(s, roots, clientId, user, r, s'.requests[r].pc);
    }
  }

  lemma NotCarried(h: History, roots: set<Source>, ask: TokenRequest, clientId: string, user: string)
    ensures forall pc: Pc :: pc.Ready? || pc.Failed? ==> PcGone(h, roots, ask, pc, clientId, user)
  {
  }

  lemma HandIsKnown(crypto: Crypto, s: State, r: nat)
    requires Inv(crypto, s) && At(s, r).AccessSaved? && r in s.requests
    ensures Known(s.log, At(s, r).grant.source)
  {
    hide Inv, ClientHolds, CodeMatches;
    OkOf(crypto, s, r);
  }

  lemma TakenHolds(crypto: Crypto, s: State, token: Token)
    requires Inv(crypto, s) && token !in s.log.taken
    ensures token !in s.log.born
  {
    hide CodesInv, RefreshInv, RequestsInv, BirthsInv, IssueOk;
  }

  lemma MintRequestsGone(crypto: Crypto, s: State, roots: set<Source>, clientId: string, user: string, r: nat,
                         token: Token, pc: Pc)
    requires RequestsGone(s.log, s.requests, roots, clientId, user) && Inv(crypto, s)
    requires At(s, r).AccessSaved? && r in s.requests && token !in s.log.born && (pc.Ready? || pc.Failed?)
    ensures RequestsGone(Minted(s.log, r, At(s, r), token), s.requests[r := s.requests[r].(pc := pc)], roots,
                         clientId, user)
  {
    hide Inv, NewBirth, RowsGone, RefreshScope;
    var h' := Minted(s.log, r, At(s, r), token);
    forall q | q in s.requests && q != r
      ensures PcGone(h', roots, s.requests[q].ask, s.requests[q].pc, clientId, user)
    {
      SourceIsKnown(crypto, s, q, clientId, user);
      if Carries(s.requests[q].ask, s.requests[q].pc, clientId, user) {
        RootStays(s.log, h', SourceOf(s.requests[q].ask, s.requests[q].pc));
        assert PcGone(s.log, roots, s.requests[q].ask, s.requests[q].pc, clientId, user);
      }
    }
  }

  lemma UnusedIsNotConsumed(crypto: Crypto, s: State)
    requires Inv(crypto, s)
    ensures forall c | c in s.codes && !s.codes[c].used :: FromCode(c) !in s.log.winner
  {
    hide HistoryInv, RefreshInv, RequestsInv;
    forall c | c in s.codes && !s.codes[c].used ensures FromCode(c) !in s.log.winner {
      assert CodeRowOk(s.log, c, s.codes[c]);
    }
  }

  lemma RotationOf(crypto: Crypto, s: State, r: nat)
    requires Inv(crypto, s) && At(s, r).Rotating? && r in s.requests
    ensures RotationOk(s.log, s.requests[r].ask, At(s, r).token)
    ensures At(s, r).client.clientId == s.requests[r].ask.clientId
  {
    hide Inv, RotationOk;
    OkOf(crypto, s, r);
  }

  lemma RefreshRowOf(crypto: Crypto, s: State, t: Token)
    requires Inv(crypto, s) && t in s.refresh
    ensures RefreshRowOk(s.log, t, s.refresh[t])
  {
    hide HistoryInv, CodesInv, RequestsInv, RefreshRowOk;
  }

  lemma RotationReads(crypto: Crypto, s: State, r: nat)
    requires Inv(crypto, s) && At(s, r).Rotating? && r in s.requests && s.requests[r].ask.refreshToken.Some?
    ensures var t := s.requests[r].ask.refreshToken.value;
      t in s.refresh ==> t in s.log.born && s.refresh[t].(used := false) == At(s, r).token.(used := false)
    ensures At(s, r).token.clientId == At(s, r).client.clientId
  {
    hide Inv;
    RotationOf(crypto, s, r);
    var t := s.requests[r].ask.refreshToken.value;
    if t in s.refresh {
      RefreshRowOf(crypto, s, t);
      NotUsedAtBirth(crypto, s, t);
    }
  }

  lemma NotUsedAtBirth(crypto: Crypto, s: State, t: Token)
    requires Inv(crypto, s) && t in s.log.born
    ensures !s.log.born[t].row.used
  {
    hide CodesInv, RefreshInv, RequestsInv, BearersInv;
    assert BirthOk(s.log, t, s.log.born[t]);
  }

  // A step that only moves a request to a place where it carries nothing it did not carry.
  lemma QuietStaysGone(crypto: Crypto, s: State, roots: set<Source>, clientId: string, user: string, a: Action)
    requires Gone(s, roots, clientId, user)
    requires a.Authenticate? || a.ReadCode? || a.ReadRefresh? || a.LoadUser?
    ensures Gone(RequestStep(crypto, s, a), roots, clientId, user)
  {
    hide RowsGone, RequestsGone, RefreshScope, ClientHolds, CodeMatches;
    if a.r in s.requests {
      GoneOf(s, roots, clientId, user, a.r);
      var s' := RequestStep(crypto, s, a);
      if s' != s {
        SetPcStaysGone(s, roots, clientId, user, a.r, s'.requests[a.r].pc);
      }
    }
  }

  lemma SaveAccessStaysGone(s: State, roots: set<Source>, clientId: string, user: string, r: nat, token: Token,
                            fate: Fate)
    requires Gone(s, roots, clientId, user) && At(s, r).Active? && r in s.requests
    ensures Gone(SaveAccessStep(s, r, At(s, r), token, fate), roots, clientId, user)
  {
    hide RowsGone, RequestsGone, RefreshScope;
    GoneOf(s, roots, clientId, user, r);
    var s' := SaveAccessStep(s, r, At(s, r), token, fate);
    var s1 := s'.(requests := s.requests);
    SameBirthsStayGone(s, s1, roots, clientId, user);
    SetPcStaysGone(s1, roots, clientId, user, r, s'.requests[r].pc);
  }

  lemma RespondStaysGone(s: State, roots: set<Source>, clientId: string, user: string, r: nat, idToken: bool)
    requires Gone(s, roots, clientId, user) && At(s, r).Ready? && r in s.requests
    ensures Gone(RespondStep(s, r, At(s, r), idToken), roots, clientId, user)
  {
    hide RowsGone, RequestsGone, RefreshScope;
    var s' := RespondStep(s, r, At(s, r), idToken);
    var s1 := s'.(requests := s.requests);
    SameBirthsStayGone(s, s1, roots, clientId, user);
    SetPcStaysGone(s1, roots, clientId, user, r, s'.requests[r].pc);
  }

  lemma RevokeStaysGone(s: State, roots: set<Source>, clientId: string, user: string, r: nat,
                        gone: bool, access: set<Token>, refresh: set<Token>, pc: Pc)
    requires Gone(s, roots, clientId, user) && r in s.requests && (pc.RevokingRefresh? || pc.Failed?)
    ensures Gone(SetPc(if gone then Delete(s, {}, access, refresh) else s, r, pc), roots, clientId, user)
  {
    hide RowsGone, RequestsGone;
    DeleteStaysGone(s, roots, clientId, user, {}, access, refresh);
    SetPcStaysGone(if gone then Delete(s, {}, access, refresh) else s, roots, clientId, user, r, pc);
  }

  lemma RequestStepStaysGone(crypto: Crypto, s: State, roots: set<Source>, clientId: string, user: string, a: Action)
    requires Gone(s, roots, clientId, user) && Inv(crypto, s)
    requires !a.SetClients? && !a.DeleteRows? && !a.Authorize? && !a.Arrive? && !a.Crash?
    ensures Gone(RequestStep(crypto, s, a), roots, clientId, user)
  {
    hide Inv, Gone, ConsumeCodeStep, ConsumeRefreshStep, AfterDrop, SaveAccessStep, SaveRefreshStep, RespondStep, SetPc,
         Delete, AccessOf, RefreshOf;
    if a.r in s.requests {
      match a
      case ConsumeCode(r, fate) =>
        if At(s, r).Redeeming? && s.requests[r].ask.code.Some? {
          UnusedIsNotConsumed(crypto, s);
          ConsumeCodeStaysGone(s, roots, clientId, user, r, fate);
        }
      case ConsumeRefresh(r, fate) =>
        if At(s, r).Rotating? && s.requests[r].ask.refreshToken.Some? {
          RotationReads(crypto, s, r);
          ConsumeRefreshStaysGone(s, roots, clientId, user, r, fate);
        }
      case DropAccess(r, fate) =>
        if At(s, r).Dropping? && s.requests[r].ask.refreshToken.Some? {
          DropStaysGone(s, roots, clientId, user, r, fate);
        }
      case SaveRefresh(r, token, fate) =>
        if At(s, r).AccessSaved? { MintStaysGone(crypto, s, roots, clientId, user, r, token, fate); }
      case Authenticate(_, _) => QuietStaysGone(crypto, s, roots, clientId, user, a);
      case ReadCode(_, _, _) => QuietStaysGone(crypto, s, roots, clientId, user, a);
      case ReadRefresh(_, _, _) => QuietStaysGone(crypto, s, roots, clientId, user, a);
      case LoadUser(_, _, _) => QuietStaysGone(crypto, s, roots, clientId, user, a);
      case SaveAccess(r, token, fate) =>
        if At(s, r).Active? { SaveAccessStaysGone(s, roots, clientId, user, r, token, fate); }
      case Respond(r, idToken) => if At(s, r).Ready? { RespondStaysGone(s, roots, clientId, user, r, idToken); }
      case RevokeAccess(r, fate) =>
        if At(s, r).Revoking? {
          RevokeStaysGone(s, roots, clientId, user, r, !fate.NotExecuted?,
                          AccessOf(s, At(s, r).clientId, At(s, r).user), {},
                          if fate.Answered? then RevokingRefresh(At(s, r).clientId, At(s, r).user) else Failed);
        }
      case RevokeRefresh(r, fate) =>
        if At(s, r).RevokingRefresh? {
          RevokeStaysGone(s, roots, clientId, user, r, !fate.NotExecuted?, {},
                          RefreshOf(s, At(s, r).clientId, At(s, r).user), Failed);
        }
    }
  }

  lemma SurroundingsStayGone(crypto: Crypto, s: State, roots: set<Source>, clientId: string, user: string, a: Action)
    requires Gone(s, roots, clientId, user)
    requires a.SetClients? || a.DeleteRows? || a.Authorize? || a.Arrive? || a.Crash?
    ensures Gone(Step(crypto, s, a), roots, clientId, user)
  {
    hide RowsGone, RequestsGone, CanAuthorize, RefreshScope;
    match a
    case SetClients(clients) => SameBirthsStayGone(s, s.(clients := clients), roots, clientId, user);
    case DeleteRows(codes, access, refresh) => DeleteStaysGone(s, roots, clientId, user, codes, access, refresh);
    case Authorize(_, _, _, _, _, _) => SameBirthsStayGone(s, Step(crypto, s, a), roots, clientId, user);
    case Arrive(r, ask) => if r !in s.requests { ArriveStaysGone(s, roots, clientId, user, r, ask); }
    case Crash(r) =>
      if r in s.requests && !At(s, r).Responded? { SetPcStaysGone(s, roots, clientId, user, r, Failed); }
  }

  lemma ArriveStaysGone(s: State, roots: set<Source>, clientId: string, user: string, r: nat, ask: TokenRequest)
    requires Gone(s, roots, clientId, user) && r !in s.requests
    ensures Gone(s.(requests := s.requests[r := Request(ask, Arrived)]), roots, clientId, user)
  {
    hide RowsGone;
  }

  lemma {:induction false} RunStaysGone(crypto: Crypto, s: State, roots: set<Source>, clientId: string, user: string,
                                        later: seq<Action>)
    requires Gone(s, roots, clientId, user) && Inv(crypto, s)
    ensures !FamilyStored(Run(crypto, s, later), roots, clientId, user)
    decreases |later|
  {
    hide Gone, Inv, Step, FamilyStored;
    if later == [] {
      GoneMeansNotStored(s, roots, clientId, user);
    } else {
      StepStaysGone(crypto, s, roots, clientId, user, later[0]);
      StepKeepsInv(crypto, s, later[0]);
      RunStaysGone(crypto, Step(crypto, s, later[0]), roots, clientId, user, later[1..]);
    }
  }

  lemma StepStaysGone(crypto: Crypto, s: State, roots: set<Source>, clientId: string, user: string, a: Action)
    requires Gone(s, roots, clientId, user) && Inv(crypto, s)
    ensures Gone(Step(crypto, s, a), roots, clientId, user)
  {
    hide Gone, Inv, RequestStep;
    if a.SetClients? || a.DeleteRows? || a.Authorize? || a.Arrive? || a.Crash? {
      SurroundingsStayGone(crypto, s, roots, clientId, user, a);
    } else {
      RequestStepStaysGone(crypto, s, roots, clientId, user, a);
    }
  }

  lemma GoneMeansNotStored(s: State, roots: set<Source>, clientId: string, user: string)
    requires Gone(s, roots, clientId, user)
    ensures !FamilyStored(s, roots, clientId, user)
  {
    hide RequestsGone;
  }

  // ---------------------------------------------------------------------------
  // With one, the family can come back.

  // The root of every token has been consumed.
  lemma {:induction false} RootIsConsumed(h: History, t: Token)
    requires BirthsInv(h) && t in h.born
    ensures FromCode(h.born[t].code) in h.winner
    decreases h.born[t].generation
  {
    hide Inherits;
    assert BirthOk(h, t, h.born[t]);
    if h.born[t].source.FromRefresh? {
      RootIsConsumed(h, h.born[t].source.token);
    }
  }

  lemma CarriedRootIsConsumed(crypto: Crypto, s: State, r: nat, clientId: string, user: string)
    requires Inv(crypto, s) && r in s.requests && Carries(s.requests[r].ask, s.requests[r].pc, clientId, user)
    ensures FromCode(RootOf(s.log, SourceOf(s.requests[r].ask, s.requests[r].pc))) in s.log.winner
  {
    SourceIsKnown(crypto, s, r, clientId, user);
    SourceIsWon(crypto, s, r, clientId, user);
    hide CodesInv, RefreshInv, RequestsInv, BirthOk, BearersInv, Carries;
    match SourceOf(s.requests[r].ask, s.requests[r].pc)
    case FromCode(_) =>
    case FromRefresh(t) => RootIsConsumed(s.log, t);
  }

  lemma SourceIsWon(crypto: Crypto, s: State, r: nat, clientId: string, user: string)
    requires Inv(crypto, s) && r in s.requests && Carries(s.requests[r].ask, s.requests[r].pc, clientId, user)
    ensures SourceOf(s.requests[r].ask, s.requests[r].pc) in s.log.winner
  {
    hide Inv, ClientHolds, GrantOk, RefreshScope, RotationOk;
    OkOf(crypto, s, r);
  }

  // Some later run stores an unused refresh token of such a family.
  ghost predicate CanReturn(crypto: Crypto, s: State, roots: set<Source>, clientId: string, user: string) {
    exists later: seq<Action> :: FamilyStored(Run(crypto, s, later), roots, clientId, user)
  }

  lemma OneStepEarlier(crypto: Crypto, s: State, a: Action, roots: set<Source>, clientId: string, user: string)
    requires CanReturn(crypto, Step(crypto, s, a), roots, clientId, user)
    ensures CanReturn(crypto, s, roots, clientId, user)
  {
    hide Step, FamilyStored;
    var later: seq<Action> :| FamilyStored(Run(crypto, Step(crypto, s, a), later), roots, clientId, user);
    assert ([a] + later)[1..] == later && ([a] + later)[0] == a;
    assert Run(crypto, s, [a] + later) == Run(crypto, Step(crypto, s, a), later);
  }

  lemma {:induction false} FreshToken(used: set<Token>) returns (t: Token)
    ensures forall u | u in used :: u < t
  {
    if used == {} {
      t := 0;
    } else {
      var x :| x in used;
      var m := FreshToken(used - {x});
      t := if m > x then m else x + 1;
      assert forall u | u in used :: u == x || u in used - {x};
    }
  }

  // The place of a request, and the root of what it carries in a set of codes.
  ghost predicate CarriesFrom(s: State, r: nat, roots: set<Source>, clientId: string, user: string) {
    && r in s.requests && Carries(s.requests[r].ask, s.requests[r].pc, clientId, user)
    && FromCode(RootOf(s.log, SourceOf(s.requests[r].ask, s.requests[r].pc))) in roots
  }

  lemma MintReturns(crypto: Crypto, s: State, r: nat, roots: set<Source>, clientId: string, user: string)
    requires CarriesFrom(s, r, roots, clientId, user) && At(s, r).AccessSaved?
    requires At(s, r).grant.source.FromRefresh? ==> At(s, r).grant.source.token in s.log.born
    ensures CanReturn(crypto, s, roots, clientId, user)
  {
    hide Run, RequestStep;
    var t := FreshToken(s.log.taken);
    var a := SaveRefresh(r, t, Answered);
    OidcService.SaveRefreshIs(crypto, s, r, t, Answered);
    var s' := Step(crypto, s, a);
    assert s'.refresh[t] == NewRefresh(At(s, r)) && s'.log.born[t] == NewBirth(s.log, r, At(s, r));
    assert FamilyStored(s', roots, clientId, user) by {
      assert t in s'.refresh && BelongsTo(s'.refresh[t], clientId, user);
    }
    OidcService.RunNothing(crypto, s');
    assert CanReturn(crypto, s', roots, clientId, user);
    OneStepEarlier(crypto, s, a, roots, clientId, user);
  }

  lemma ActiveReturns(crypto: Crypto, s: State, r: nat, roots: set<Source>, clientId: string, user: string)
    requires CarriesFrom(s, r, roots, clientId, user) && At(s, r).Active?
    requires At(s, r).grant.source.FromRefresh? ==> At(s, r).grant.source.token in s.log.born
    ensures CanReturn(crypto, s, roots, clientId, user)
  {
    hide Run, RequestStep, CanReturn;
    var t := FreshToken(s.log.taken);
    OidcService.SaveAccessIs(crypto, s, r, t, Answered);
    MintReturns(crypto, Step(crypto, s, SaveAccess(r, t, Answered)), r, roots, clientId, user);
    OneStepEarlier(crypto, s, SaveAccess(r, t, Answered), roots, clientId, user);
  }

  lemma GrantedReturns(crypto: Crypto, s: State, r: nat, roots: set<Source>, clientId: string, user: string)
    requires CarriesFrom(s, r, roots, clientId, user) && At(s, r).Granted?
    requires At(s, r).grant.source.FromRefresh? ==> At(s, r).grant.source.token in s.log.born
    ensures CanReturn(crypto, s, roots, clientId, user)
  {
    hide Run, RequestStep, CanReturn;
    OidcService.LoadUserIs(crypto, s, r, 0, true);
    ActiveReturns(crypto, Step(crypto, s, LoadUser(r, 0, true)), r, roots, clientId, user);
    OneStepEarlier(crypto, s, LoadUser(r, 0, true), roots, clientId, user);
  }

  lemma DroppingReturns(crypto: Crypto, s: State, r: nat, roots: set<Source>, clientId: string, user: string)
    requires CarriesFrom(s, r, roots, clientId, user) && At(s, r).Dropping?
    requires s.requests[r].ask.refreshToken.value in s.log.born
    ensures CanReturn(crypto, s, roots, clientId, user)
  {
    hide Run, RequestStep, CanReturn, RefreshScope;
    OidcService.DropAccessIs(crypto, s, r, Answered);
    GrantedReturns(crypto, Step(crypto, s, DropAccess(r, Answered)), r, roots, clientId, user);
    OneStepEarlier(crypto, s, DropAccess(r, Answered), roots, clientId, user);
  }

  lemma CarriedReturns(crypto: Crypto, s: State, r: nat, clientId: string, user: string)
    requires Inv(crypto, s) && r in s.requests && Carries(s.requests[r].ask, s.requests[r].pc, clientId, user)
    ensures CanReturn(crypto, s, s.log.winner.Keys, clientId, user)
  {
    hide Inv, CanReturn, RefreshScope;
    SourceIsKnown(crypto, s, r, clientId, user);
    CarriedRootIsConsumed(crypto, s, r, clientId, user);
    var roots := s.log.winner.Keys;
    match s.requests[r].pc
    case Dropping(_, _) => DroppingReturns(crypto, s, r, roots, clientId, user);
    case Granted(_, _) => GrantedReturns(crypto, s, r, roots, clientId, user);
    case Active(_, _, _) => ActiveReturns(crypto, s, r, roots, clientId, user);
    case AccessSaved(_, _, _, _) => MintReturns(crypto, s, r, roots, clientId, user);
  }

  // ---------------------------------------------------------------------------
  // The theorem.

  lemma EmptiedIsGone(s: State, clientId: string, user: string)
    requires RefreshOf(s, clientId, user) == {} && !InFlight(s, clientId, user)
    ensures Gone(s, s.log.winner.Keys, clientId, user)
  {
    hide Carries;
    forall t | t in s.refresh ensures !BelongsTo(s.refresh[t], clientId, user) {
      assert t !in RefreshOf(s, clientId, user);
    }
  }

  // At any moment at which no refresh token of a client and user is stored, as when their
  // revocation is done: an unused one of a family consumed before can be stored again later
  // if and only if a request for them has consumed its code or token and not yet saved.
  lemma RevocationIsFinalIff(crypto: Crypto, actions: seq<Action>, clientId: string, user: string)
    requires RefreshOf(Run(crypto, START, actions), clientId, user) == {}
    ensures var s := Run(crypto, START, actions);
      CanReturn(crypto, s, s.log.winner.Keys, clientId, user) <==> InFlight(s, clientId, user)
  {
    hide Run, Inv, Gone, FamilyStored, Carries;
    var s := Run(crypto, START, actions);
    StartIsOk(crypto);
    RunKeepsInv(crypto, START, actions);
    if InFlight(s, clientId, user) {
      var r :| r in s.requests && Carries(s.requests[r].ask, s.requests[r].pc, clientId, user);
      CarriedReturns(crypto, s, r, clientId, user);
    } else {
      EmptiedIsGone(s, clientId, user);
      forall later: seq<Action> ensures !FamilyStored(Run(crypto, s, later), s.log.winner.Keys, clientId, user) {
        RunStaysGone(crypto, s, s.log.winner.Keys, clientId, user, later);
      }
    }
  }

  // The second delete of a revocation brings that moment about.
  lemma RevokingEmpties(crypto: Crypto, actions: seq<Action>, r: nat, fate: Fate)
    requires At(Run(crypto, START, actions), r).RevokingRefresh? && !fate.NotExecuted?
    ensures var pc := At(Run(crypto, START, actions), r);
      RefreshOf(Run(crypto, START, actions + [RevokeRefresh(r, fate)]), pc.clientId, pc.user) == {}
  {
    hide Run, RequestStep;
    var s := Run(crypto, START, actions);
    OidcService.RunOneMore(crypto, START, actions, RevokeRefresh(r, fate));
    OidcService.RevokeRefreshIs(crypto, s, r, fate);
  }

  // ---------------------------------------------------------------------------
  // A run in which it happens: a token is rotated, presented again, and its family revoked
  // while the first request is still about to save the successor.

  function Verifier(): (verifier: string) {
    seq(43, _ => 'a')
  }

  function ExampleClient(): (client: Client) {
    Client("c", true, "", true, ["u"], [], true, true, true, true, 60, 60)
  }

  function ExampleCode(crypto: Crypto): (row: CodeRow) {
    CodeRow("c", "user", "u", OPENID, Some(crypto.s256(Verifier())), Some(S256), Some("s"), false, CODE_LIFETIME)
  }

  function ExampleToken(used: bool): (row: RefreshRow) {
    RefreshRow("c", "user", 1, OPENID, Some("s"), used, 60)
  }

  function AuthorizeExample(crypto: Crypto): (request: AuthorizeRequest) {
    AuthorizeRequest("c", "u", "code", Some(""), Some(crypto.s256(Verifier())), Some(S256))
  }

  function CodeExample(): (ask: TokenRequest) {
    TokenRequest("authorization_code", Some(0), Some("u"), "c", None, Some(Verifier()), None, None)
  }

  function RefreshExample(): (ask: TokenRequest) {
    TokenRequest("refresh_token", None, None, "c", None, None, Some(2), None)
  }

  // A code is issued, and read by request 0 at this instant.
  function Issuing(crypto: Crypto, now: int): (actions: seq<Action>) {
    [SetClients(map["c" := ExampleClient()]), Authorize(0, AuthorizeExample(crypto), "user", "s", OPENID, 0),
     Arrive(0, CodeExample()), Authenticate(0, true), ReadCode(0, now, true)]
  }

  // It redeems the code; its refresh token is number 2.
  function Redemption(): (actions: seq<Action>) {
    [ConsumeCode(0, Answered), LoadUser(0, 0, true), SaveAccess(0, 1, Answered), SaveRefresh(0, 2, Answered)]
  }

  // Requests 1 and 2 both present that token; request 1 rotates it first.
  function Presentation(r: nat): (actions: seq<Action>) {
    [Arrive(r, RefreshExample()), Authenticate(r, true), ReadRefresh(r, 0, true)]
  }

  function Rotation(): (actions: seq<Action>) {
    Presentation(1) + [ConsumeRefresh(1, Answered)]
  }

  function Reuse(): (actions: seq<Action>) {
    Presentation(2) + [RevokeAccess(2, Answered)]
  }

  lemma ExampleIsAuthorized(crypto: Crypto)
    ensures AuthorizeHolds(ExampleClient(), AuthorizeExample(crypto))
    ensures Grants(ExampleClient().allowedScopes, Some(""), OPENID)
    ensures CodeMatches(crypto, ExampleClient(), ExampleCode(crypto), CodeExample())
    ensures ClientHolds(crypto, ExampleClient(), CodeExample())
    ensures ClientHolds(crypto, ExampleClient(), RefreshExample())
  {
    NoWords();
    WordsOfFront("code", "");
    assert "code" + "" == "code";
    hide Words;
  }

  lemma RunOfFour(crypto: Crypto, s: State, todo: seq<Action>)
    requires |todo| == 4
    ensures Run(crypto, s, todo)
      == Step(crypto, Step(crypto, Step(crypto, Step(crypto, s, todo[0]), todo[1]), todo[2]), todo[3])
  {
    hide Step;
    assert todo == [todo[0]] + ([todo[1]] + ([todo[2]] + [todo[3]]));
    OneMoreFirst(crypto, s, todo[0], [todo[1]] + ([todo[2]] + [todo[3]]));
    var s1 := Step(crypto, s, todo[0]);
    OneMoreFirst(crypto, s1, todo[1], [todo[2]] + [todo[3]]);
    var s2 := Step(crypto, s1, todo[1]);
    OneMoreFirst(crypto, s2, todo[2], [todo[3]]);
    OneMoreFirst(crypto, Step(crypto, s2, todo[2]), todo[3], []);
    assert [todo[3]] + [] == [todo[3]];
    OidcService.RunNothing(crypto, Step(crypto, Step(crypto, s2, todo[2]), todo[3]));
  }

  lemma OneMoreFirst(crypto: Crypto, s: State, a: Action, rest: seq<Action>)
    ensures Run(crypto, s, [a] + rest) == Run(crypto, Step(crypto, s, a), rest)
  {
    hide Step;
    assert ([a] + rest)[1..] == rest;
  }

  // Request 0 alone, here, with these bearers drawn and no refresh token yet.
  ghost predicate Redeems(s: State, pc: Pc, taken: set<Token>) {
    && s.clients == map["c" := ExampleClient()] && s.refresh == map[] && s.log.born == map[] && s.log.taken == taken
    && s.requests == map[0 := Request(CodeExample(), pc)]
  }

  lemma CodeIsIssued(crypto: Crypto, todo: seq<Action>)
    requires |todo| == 5 && todo[..3] == Issuing(crypto, 0)[..3]
    ensures var s := Step(crypto, Step(crypto, Step(crypto, START, todo[0]), todo[1]), todo[2]);
      Redeems(s, Arrived, {0}) && s.codes == map[0 := ExampleCode(crypto)]
  {
    hide AuthorizeHolds, Grants, ExampleClient;
    assert forall i | 0 <= i < 3 :: todo[i] == Issuing(crypto, 0)[..3][i];
    ExampleIsAuthorized(crypto);
    ExampleIsNamed();
  }

  lemma ExampleIsKnown(crypto: Crypto)
    ensures AfterAuthenticate(crypto, map["c" := ExampleClient()], CodeExample()) == CodeClient(ExampleClient())
    ensures AfterAuthenticate(crypto, map["c" := ExampleClient()], RefreshExample()) == RefreshClient(ExampleClient())
  {
    hide ClientHolds, ExampleClient;
    ExampleIsNamed();
    ExampleIsAuthorized(crypto);
  }

  lemma RedeemerIsKnown(crypto: Crypto, s: State)
    requires Redeems(s, Arrived, {0})
    ensures Redeems(Step(crypto, s, Authenticate(0, true)), CodeClient(ExampleClient()), {0})
    ensures Step(crypto, s, Authenticate(0, true)).codes == s.codes
  {
    hide RequestStep, AfterAuthenticate, ExampleClient, CodeExample;
    ExampleIsKnown(crypto);
    OidcService.AuthenticateIs(crypto, s, 0, true);
  }

  lemma CodeIsRead(crypto: Crypto, s: State, now: int)
    requires Redeems(s, CodeClient(ExampleClient()), {0}) && s.codes == map[0 := ExampleCode(crypto)]
    requires now <= CODE_LIFETIME
    ensures var s' := Step(crypto, s, ReadCode(0, now, true));
      Redeems(s', Redeeming(ExampleClient(), ExampleCode(crypto)), {0}) && s'.codes == s.codes
  {
    hide RequestStep, CodeMatches, ExampleClient;
    ExampleIsAuthorized(crypto);
    OidcService.ReadCodeIs(crypto, s, 0, now, true);
  }

  lemma AfterIssuing(crypto: Crypto, now: int)
    requires now <= CODE_LIFETIME
    ensures var s := Run(crypto, START, Issuing(crypto, now));
      Redeems(s, Redeeming(ExampleClient(), ExampleCode(crypto)), {0}) && s.codes == map[0 := ExampleCode(crypto)]
  {
    var todo := Issuing(crypto, now);
    assert todo[..4] + [todo[4]] == todo;
    CodeIsIssued(crypto, todo);
    hide Run, Step, Redeems, ExampleCode, ExampleClient;
    var s3 := Step(crypto, Step(crypto, Step(crypto, START, todo[0]), todo[1]), todo[2]);
    RedeemerIsKnown(crypto, s3);
    CodeIsRead(crypto, Step(crypto, s3, todo[3]), now);
    RunOfFour(crypto, START, todo[..4]);
    OidcService.RunOneMore(crypto, START, todo[..4], todo[4]);
  }

  lemma ExampleIsNamed()
    ensures var client := ExampleClient();
      client.clientId == "c" && client.codeGrant && client.refreshGrant && client.isActive
      && client.refreshLifetime == 60 && client.accessLifetime == 60
  {
  }

  lemma CodeIsConsumed(crypto: Crypto, s: State)
    requires Redeems(s, Redeeming(ExampleClient(), ExampleCode(crypto)), {0})
    requires s.codes == map[0 := ExampleCode(crypto)]
    ensures Redeems(Step(crypto, s, ConsumeCode(0, Answered)),
                    Granted(ExampleClient(), CodeGrantOf(0, ExampleCode(crypto))), {0})
  {
    hide RequestStep, ExampleClient;
    OidcService.ConsumeCodeIs(crypto, s, 0, Answered);
  }

  lemma UserIsLoaded(crypto: Crypto, s: State, grant: Grant)
    requires Redeems(s, Granted(ExampleClient(), grant), {0})
    ensures Redeems(Step(crypto, s, LoadUser(0, 0, true)), Active(ExampleClient(), grant, 0), {0})
  {
    hide RequestStep, ExampleClient;
    OidcService.LoadUserIs(crypto, s, 0, 0, true);
  }

  lemma AccessIsSaved(crypto: Crypto, s: State, grant: Grant)
    requires Redeems(s, Active(ExampleClient(), grant, 0), {0})
    ensures Redeems(Step(crypto, s, SaveAccess(0, 1, Answered)), AccessSaved(ExampleClient(), grant, 0, 1), {0, 1})
  {
    hide RequestStep, ExampleClient;
    OidcService.SaveAccessIs(crypto, s, 0, 1, Answered);
  }

  lemma RefreshIsSaved(crypto: Crypto, s: State)
    requires Redeems(s, AccessSaved(ExampleClient(), CodeGrantOf(0, ExampleCode(crypto)), 0, 1), {0, 1})
    ensures var s' := Step(crypto, s, SaveRefresh(0, 2, Answered));
      s'.clients == s.clients && s'.refresh == map[2 := ExampleToken(false)] && s'.requests.Keys == {0}
  {
    hide RequestStep, ExampleClient, NewBirth;
    ExampleIsNamed();
    OidcService.SaveRefreshIs(crypto, s, 0, 2, Answered);
  }

  lemma AfterRedemption(crypto: Crypto, s: State)
    requires Redeems(s, Redeeming(ExampleClient(), ExampleCode(crypto)), {0})
    requires s.codes == map[0 := ExampleCode(crypto)]
    ensures var s' := Run(crypto, s, Redemption());
      && s'.clients == map["c" := ExampleClient()] && s'.refresh == map[2 := ExampleToken(false)]
      && s'.requests.Keys == {0}
  {
    RunOfFour(crypto, s, Redemption());
    hide Run, Step, ExampleClient;
    var todo, grant := Redemption(), CodeGrantOf(0, ExampleCode(crypto));
    CodeIsConsumed(crypto, s);
    UserIsLoaded(crypto, Step(crypto, s, todo[0]), grant);
    AccessIsSaved(crypto, Step(crypto, Step(crypto, s, todo[0]), todo[1]), grant);
    RefreshIsSaved(crypto, Step(crypto, Step(crypto, Step(crypto, s, todo[0]), todo[1]), todo[2]));
  }

  // What the presented token leads to.
  function Presented(used: bool): (pc: Pc) {
    if used then Revoking("c", "user") else Rotating(ExampleClient(), ExampleToken(false))
  }

  lemma TokenIsRead(crypto: Crypto, s: State, r: nat, used: bool)
    requires s.refresh == map[2 := ExampleToken(used)]
    requires r in s.requests && s.requests[r] == Request(RefreshExample(), RefreshClient(ExampleClient()))
    ensures Step(crypto, s, ReadRefresh(r, 0, true)) == SetPc(s, r, Presented(used))
  {
    hide RequestStep, ExampleClient;
    OidcService.ReadRefreshIs(crypto, s, r, 0, true);
  }

  lemma PresenterIsKnown(crypto: Crypto, s: State, r: nat)
    requires s.clients == map["c" := ExampleClient()]
    requires r in s.requests && s.requests[r] == Request(RefreshExample(), Arrived)
    ensures Step(crypto, s, Authenticate(r, true)) == SetPc(s, r, RefreshClient(ExampleClient()))
  {
    hide RequestStep, AfterAuthenticate, ExampleClient, RefreshExample;
    ExampleIsKnown(crypto);
    OidcService.AuthenticateIs(crypto, s, r, true);
  }

  lemma AfterPresentation(crypto: Crypto, s: State, r: nat, used: bool)
    requires s.clients == map["c" := ExampleClient()] && s.refresh == map[2 := ExampleToken(used)] && r !in s.requests
    ensures Run(crypto, s, Presentation(r))
      == s.(requests := s.requests[r := Request(RefreshExample(), Presented(used))])
  {
    hide Run, RequestStep, ExampleClient, ExampleToken, Presented;
    var todo := Presentation(r);
    var s1 := Step(crypto, s, todo[0]);
    PresenterIsKnown(crypto, s1, r);
    TokenIsRead(crypto, Step(crypto, s1, todo[1]), r, used);
    RunOfThree(crypto, s, todo[0], todo[1], todo[2]);
  }

  lemma RunOfThree(crypto: Crypto, s: State, a: Action, b: Action, c: Action)
    ensures Run(crypto, s, [a, b, c]) == Step(crypto, Step(crypto, Step(crypto, s, a), b), c)
  {
    hide Step;
    var s2 := Step(crypto, Step(crypto, s, a), b);
    OneMoreFirst(crypto, s, a, [b, c]);
    OneMoreFirst(crypto, Step(crypto, s, a), b, [c]);
    OneMoreFirst(crypto, s2, c, []);
    OidcService.RunNothing(crypto, Step(crypto, s2, c));
    assert [a, b, c] == [a] + [b, c] && [b, c] == [b] + [c] && [c] == [c] + [];
  }

  lemma TokenIsConsumed(crypto: Crypto, s: State)
    requires s.refresh == map[2 := ExampleToken(false)] && s.requests.Keys == {0, 1}
    requires s.requests[1] == Request(RefreshExample(), Rotating(ExampleClient(), ExampleToken(false)))
    ensures var s' := Step(crypto, s, ConsumeRefresh(1, Answered));
      && s'.clients == s.clients && s'.refresh == map[2 := ExampleToken(true)] && s'.requests.Keys == {0, 1}
      && s'.requests[1] == Request(RefreshExample(), Dropping(ExampleClient(), ExampleToken(false)))
  {
    hide RequestStep, ExampleClient;
    OidcService.ConsumeRefreshIs(crypto, s, 1, Answered);
  }

  lemma AfterRotation(crypto: Crypto, s: State)
    requires s.clients == map["c" := ExampleClient()] && s.refresh == map[2 := ExampleToken(false)]
    requires s.requests.Keys == {0}
    ensures var s' := Run(crypto, s, Rotation());
      && s'.clients == s.clients && s'.refresh == map[2 := ExampleToken(true)] && s'.requests.Keys == {0, 1}
      && s'.requests[1] == Request(RefreshExample(), Dropping(ExampleClient(), ExampleToken(false)))
  {
    AfterPresentation(crypto, s, 1, false);
    hide Run, Step, ExampleClient, ExampleToken, Presentation;
    TokenIsConsumed(crypto, Run(crypto, s, Presentation(1)));
    OidcService.RunOneMore(crypto, s, Presentation(1), ConsumeRefresh(1, Answered));
  }

  lemma AfterReuse(crypto: Crypto, s: State)
    requires s.clients == map["c" := ExampleClient()] && s.refresh == map[2 := ExampleToken(true)]
    requires s.requests.Keys == {0, 1}
    ensures var s' := Run(crypto, s, Reuse());
      s'.refresh == s.refresh && s'.requests == s.requests[2 := Request(RefreshExample(), RevokingRefresh("c", "user"))]
  {
    AfterPresentation(crypto, s, 2, true);
    hide Run, RequestStep, ExampleClient, Presentation;
    var s3 := Run(crypto, s, Presentation(2));
    OidcService.RevokeAccessIs(crypto, s3, 2, Answered);
    OidcService.RunOneMore(crypto, s, Presentation(2), RevokeAccess(2, Answered));
  }

  lemma AfterRevocation(crypto: Crypto, s: State)
    requires s.refresh == map[2 := ExampleToken(true)] && 1 in s.requests
    requires At(s, 2) == RevokingRefresh("c", "user") && 2 in s.requests
    ensures var s' := Step(crypto, s, RevokeRefresh(2, Answered));
      s'.refresh == map[] && 1 in s'.requests && s'.requests[1] == s.requests[1]
  {
    hide RequestStep;
    OidcService.RevokeRefreshIs(crypto, s, 2, Answered);
    assert 2 in RefreshOf(s, "c", "user");
  }

  // The second delete of the revocation has been carried out and answered, and yet a token
  // of the family can be stored again.
  lemma RevocationCanBeOutrun(crypto: Crypto)
    ensures var before := Issuing(crypto, 0) + Redemption() + Rotation() + Reuse();
      && At(Run(crypto, START, before), 2) == RevokingRefresh("c", "user")
      && var s := Run(crypto, START, before + [RevokeRefresh(2, Answered)]);
      && RefreshOf(s, "c", "user") == {}
      && CanReturn(crypto, s, s.log.winner.Keys, "c", "user")
  {
    hide Run, ExampleClient, Issuing, Redemption, Rotation, Reuse;
    var redeemed := Issuing(crypto, 0) + Redemption();
    var before := redeemed + Rotation() + Reuse();
    AfterIssuing(crypto, 0);
    var s1 := Run(crypto, START, Issuing(crypto, 0));
    AfterRedemption(crypto, s1);
    OidcService.RunInTwoParts(crypto, START, Issuing(crypto, 0), Redemption());
    var s2 := Run(crypto, s1, Redemption());
    AfterRotation(crypto, s2);
    OidcService.RunInTwoParts(crypto, START, redeemed, Rotation());
    var s3 := Run(crypto, s2, Rotation());
    AfterReuse(crypto, s3);
    OidcService.RunInTwoParts(crypto, START, redeemed + Rotation(), Reuse());
    var s4 := Run(crypto, s3, Reuse());
    AfterRevocation(crypto, s4);
    OidcService.RunOneMore(crypto, START, before, RevokeRefresh(2, Answered));
    hide FamilyStored, CanReturn, Step, RequestStep;
    var s := Run(crypto, START, before + [RevokeRefresh(2, Answered)]);
    ExampleIsNamed();
    assert RefreshOf(s, "c", "user") == {};
    assert Carries(s.requests[1].ask, s.requests[1].pc, "c", "user");
    RevocationIsFinalIff(crypto, before + [RevokeRefresh(2, Answered)], "c", "user");
  }
}
