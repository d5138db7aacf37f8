// The cleanup of expired codes and tokens (src/services/oidc.rs) among the grants: when
// exactly it can be told from the answers that it has been.
module OidcCleanup {
  import opened Base
  import opened Oidc
  import opened OidcSafety
  import OidcRevocation
  import OidcService

  // Codes and refresh tokens that one statement of a cleanup removes, or several together.
  // Access tokens are left out: no grant reads them.
  datatype Swept = Swept(at: int, codes: set<Token>, refresh: set<Token>)

  // They are stored, and have expired at the time of the cleanup.
  predicate Expired(s: State, x: Swept) {
    && (forall c | c in x.codes :: c in s.codes && s.codes[c].expiresAt < x.at)
    && (forall t | t in x.refresh :: t in s.refresh && s.refresh[t].expiresAt < x.at)
  }

  function Cleaned(s: State, x: Swept, access: set<Token>): (r: State) {
    Delete(s, x.codes, access, x.refresh)
  }

  // All three statements at once.
  ghost function SweptAt(s: State, at: int): (x: Swept)
    ensures Expired(s, x)
  {
    Swept(at, (set c | c in s.codes && s.codes[c].expiresAt < at),
          (set t | t in s.refresh && s.refresh[t].expiresAt < at))
  }

  lemma SweepKeepsTheRest(s: State, at: int)
    ensures var s' := Cleaned(s, SweptAt(s, at), set t | t in s.access && s.access[t].expiresAt < at);
      && s'.codes == (map c | c in s.codes && s.codes[c].expiresAt >= at :: s.codes[c])
      && s'.access == (map t | t in s.access && s.access[t].expiresAt >= at :: s.access[t])
      && s'.refresh == (map t | t in s.refresh && s.refresh[t].expiresAt >= at :: s.refresh[t])
  {
  }

  // The request has read one of these rows, and the row is still there to be consumed.
  predicate Holds(s: State, x: Swept, ask: TokenRequest, pc: Pc) {
    match pc
    case Redeeming(_, _) =>
      ask.code.Some? && ask.code.value in x.codes && ask.code.value in s.codes && !s.codes[ask.code.value].used
    case Rotating(_, _) =>
      && ask.refreshToken.Some? && ask.refreshToken.value in x.refresh
      && ask.refreshToken.value in s.refresh && !s.refresh[ask.refreshToken.value].used
    case _ => false
  }

  predicate Held(s: State, x: Swept) {
    exists r :: r in s.requests && Holds(s, x, s.requests[r].ask, s.requests[r].pc)
  }

  // The two states differ in what was removed, and in access tokens.
  predicate Apart(s: State, b: State, x: Swept) {
    && b.clients == s.clients && b.requests == s.requests && b.log == s.log
    && b.codes == s.codes - x.codes && b.refresh == s.refresh - x.refresh
  }

  // What was removed has expired, and no bearer of it will be drawn again.
  predicate Past(s: State, x: Swept) {
    && x.codes <= s.log.taken && x.refresh <= s.log.taken
    && (forall c | c in x.codes && c in s.codes :: s.codes[c].expiresAt < x.at)
    && (forall t | t in x.refresh && t in s.refresh :: s.refresh[t].expiresAt < x.at)
  }

  predicate Hidden(s: State, b: State, x: Swept) {
    Apart(s, b, x) && Past(s, x) && !Held(s, x)
  }

  // No clock goes back behind the cleanup.
  predicate ReadsFrom(actions: seq<Action>, at: int) {
    forall a | a in actions :: (a.ReadCode? || a.ReadRefresh?) ==> a.now >= at
  }

  // ---------------------------------------------------------------------------
  // While nobody holds a removed row, no step tells the two states apart.

  lemma MoveStaysHidden(s: State, b: State, x: Swept, r: nat, pc: Pc)
    requires Hidden(s, b, x) && r in s.requests && !Holds(s, x, s.requests[r].ask, pc)
    ensures Hidden(SetPc(s, r, pc), SetPc(b, r, pc), x)
  {
    var s' := SetPc(s, r, pc);
    forall q | q in s'.requests ensures !Holds(s', x, s'.requests[q].ask, s'.requests[q].pc) {
      if q != r {
        assert !Holds(s, x, s.requests[q].ask, s.requests[q].pc);
      }
    }
  }

  // Rows that leave both states.
  lemma DeleteStaysHidden(s: State, b: State, x: Swept, codes: set<Token>, access: set<Token>, refresh: set<Token>,
                          access': set<Token>, refresh': set<Token>)
    requires Hidden(s, b, x) && refresh - x.refresh <= refresh' <= refresh
    ensures Hidden(Delete(s, codes, access, refresh), Delete(b, codes, access', refresh'), x)
  {
    var s', b' := Delete(s, codes, access, refresh), Delete(b, codes, access', refresh');
    assert b'.codes == s'.codes - x.codes && b'.refresh == s'.refresh - x.refresh;
    forall q | q in s'.requests ensures !Holds(s', x, s'.requests[q].ask, s'.requests[q].pc) {
      assert !Holds(s, x, s.requests[q].ask, s.requests[q].pc);
    }
  }

  // Codes are used up, or a new one comes; nobody comes to hold a removed one.
  lemma CodesStayHidden(s: State, b: State, x: Swept, code: Token, row: CodeRow, log: History)
    requires Hidden(s, b, x) && s.log.taken <= log.taken && code !in x.codes
    ensures Hidden(s.(codes := s.codes[code := row], log := log), b.(codes := b.codes[code := row], log := log), x)
  {
    var s', b' := s.(codes := s.codes[code := row], log := log), b.(codes := b.codes[code := row], log := log);
    assert b'.codes == s'.codes - x.codes;
    forall q | q in s'.requests ensures !Holds(s', x, s'.requests[q].ask, s'.requests[q].pc) {
      assert !Holds(s, x, s.requests[q].ask, s.requests[q].pc);
    }
  }

  lemma RefreshStaysHidden(s: State, b: State, x: Swept, token: Token, row: RefreshRow, log: History)
    requires Hidden(s, b, x) && s.log.taken <= log.taken && token !in x.refresh
    ensures Hidden(s.(refresh := s.refresh[token := row], log := log),
                   b.(refresh := b.refresh[token := row], log := log), x)
  {
    var s' := s.(refresh := s.refresh[token := row], log := log);
    var b' := b.(refresh := b.refresh[token := row], log := log);
    assert b'.refresh == s'.refresh - x.refresh;
    forall q | q in s'.requests ensures !Holds(s', x, s'.requests[q].ask, s'.requests[q].pc) {
      assert !Holds(s, x, s.requests[q].ask, s.requests[q].pc);
    }
  }

  lemma LogStaysHidden(s: State, b: State, x: Swept, access: map<Token, AccessRow>, access': map<Token, AccessRow>,
                       log: History)
    requires Hidden(s, b, x) && s.log.taken <= log.taken
    ensures Hidden(s.(access := access, log := log), b.(access := access', log := log), x)
  {
    var s' := s.(access := access, log := log);
    forall q | q in s'.requests ensures !Holds(s', x, s'.requests[q].ask, s'.requests[q].pc) {
      assert !Holds(s, x, s.requests[q].ask, s.requests[q].pc);
    }
  }

  lemma NotHeld(s: State, x: Swept, r: nat)
    requires !Held(s, x) && r in s.requests
    ensures !Holds(s, x, s.requests[r].ask, s.requests[r].pc)
  {
    hide Holds;
  }

  lemma ConsumeCodeStaysHidden(s: State, b: State, x: Swept, r: nat, client: Client, row: CodeRow, fate: Fate)
    requires Hidden(s, b, x) && r in s.requests && s.requests[r].ask.code.Some? && s.requests[r].pc.Redeeming?
    ensures Hidden(ConsumeCodeStep(s, r, client, row, fate), ConsumeCodeStep(b, r, client, row, fate), x)
  {
    NotHeld(s, x, r);
    var code := s.requests[r].ask.code.value;
    var s1 := if fate.NotExecuted? then s else MarkCodeUsed(s, code, r);
    var b1 := if fate.NotExecuted? then b else MarkCodeUsed(b, code, r);
    var won := fate.Answered? && code in s.codes && !s.codes[code].used;
    if code in s.codes && !s.codes[code].used {
      CodesStayHidden(s, b, x, code, s.codes[code].(used := true), Consumed(s.log, FromCode(code), r));
    }
    hide Held, Past;
    MoveStaysHidden(s1, b1, x, r, if won then Granted(client, CodeGrantOf(code, row)) else Failed);
  }

  lemma ConsumeRefreshStaysHidden(s: State, b: State, x: Swept, r: nat, client: Client, row: RefreshRow, fate: Fate)
    requires Hidden(s, b, x) && r in s.requests && s.requests[r].ask.refreshToken.Some? && s.requests[r].pc.Rotating?
    ensures Hidden(ConsumeRefreshStep(s, r, client, row, fate), ConsumeRefreshStep(b, r, client, row, fate), x)
  {
    NotHeld(s, x, r);
    var token := s.requests[r].ask.refreshToken.value;
    var s1 := if fate.NotExecuted? then s else MarkRefreshUsed(s, token, r);
    var b1 := if fate.NotExecuted? then b else MarkRefreshUsed(b, token, r);
    var won := fate.Answered? && token in s.refresh && !s.refresh[token].used;
    if token in s.refresh && !s.refresh[token].used {
      RefreshStaysHidden(s, b, x, token, s.refresh[token].(used := true), Consumed(s.log, FromRefresh(token), r));
    }
    hide Held, Past;
    MoveStaysHidden(s1, b1, x, r, if won then Dropping(client, row) else Failed);
  }

  // A row that has expired is refused, and so is one that is gone.
  lemma ReadsAlike(crypto: Crypto, s: State, b: State, x: Swept, ask: TokenRequest, client: Client, now: int)
    requires Hidden(s, b, x) && now >= x.at
    ensures AfterReadCode(crypto, b.codes, ask, client, now) == AfterReadCode(crypto, s.codes, ask, client, now)
    ensures AfterReadRefresh(b.refresh, ask, client, now) == AfterReadRefresh(s.refresh, ask, client, now)
    ensures !Holds(s, x, ask, AfterReadCode(crypto, s.codes, ask, client, now))
    ensures !Holds(s, x, ask, AfterReadRefresh(s.refresh, ask, client, now))
  {
    hide CodeMatches, Held;
  }

  lemma SaveAccessStaysHidden(s: State, b: State, x: Swept, r: nat, pc: Pc, token: Token, fate: Fate)
    requires Hidden(s, b, x) && r in s.requests && pc.Active?
    ensures Hidden(SaveAccessStep(s, r, pc, token, fate), SaveAccessStep(b, r, pc, token, fate), x)
  {
    var s', b' := SaveAccessStep(s, r, pc, token, fate), SaveAccessStep(b, r, pc, token, fate);
    LogStaysHidden(s, b, x, s'.access, b'.access, s'.log);
    hide Held, Past;
    MoveStaysHidden(s.(access := s'.access, log := s'.log), b.(access := b'.access, log := s'.log), x, r,
                    s'.requests[r].pc);
  }

  lemma MintTakes(h: History, r: nat, pc: Pc, token: Token)
    requires pc.AccessSaved?
    ensures h.taken <= Minted(h, r, pc, token).taken
  {
    hide NewBirth;
  }

  lemma FreshIsNotSwept(s: State, x: Swept, token: Token)
    requires Past(s, x) && token !in s.log.taken
    ensures token !in x.codes && token !in x.refresh
  {
  }

  lemma SaveRefreshStaysHidden(s: State, b: State, x: Swept, r: nat, pc: Pc, token: Token, fate: Fate)
    requires Hidden(s, b, x) && r in s.requests && pc.AccessSaved?
    ensures Hidden(SaveRefreshStep(s, r, pc, token, fate), SaveRefreshStep(b, r, pc, token, fate), x)
  {
    hide Held, Past, NewRefresh, Minted, SetPc;
    MoveStaysHidden(s, b, x, r, Ready(pc.client, pc.grant, pc.access, None));
    MoveStaysHidden(s, b, x, r, Failed);
    if token !in s.log.taken {
      var row, log := NewRefresh(pc), Minted(s.log, r, pc, token);
      MintTakes(s.log, r, pc, token);
      FreshIsNotSwept(s, x, token);
      RefreshStaysHidden(s, b, x, token, row, log);
      MoveStaysHidden(s.(refresh := s.refresh[token := row], log := log),
                      b.(refresh := b.refresh[token := row], log := log), x, r,
                      if fate.Answered? then Ready(pc.client, pc.grant, pc.access, Some(token)) else Failed);
    }
  }

  lemma RespondStaysHidden(s: State, b: State, x: Swept, r: nat, pc: Pc, idToken: bool)
    requires Hidden(s, b, x) && r in s.requests && pc.Ready?
    ensures Hidden(RespondStep(s, r, pc, idToken), RespondStep(b, r, pc, idToken), x)
  {
    var s' := RespondStep(s, r, pc, idToken);
    LogStaysHidden(s, b, x, s.access, b.access, s'.log);
    hide Held, Past;
    MoveStaysHidden(s.(log := s'.log), b.(log := s'.log), x, r, s'.requests[r].pc);
  }

  lemma RevokeRefreshStaysHidden(s: State, b: State, x: Swept, r: nat, clientId: string, user: string, fate: Fate)
    requires Hidden(s, b, x) && r in s.requests
    ensures Hidden(
      SetPc(if fate.NotExecuted? then s else Delete(s, {}, {}, RefreshOf(s, clientId, user)), r, Failed),
      SetPc(if fate.NotExecuted? then b else Delete(b, {}, {}, RefreshOf(b, clientId, user)), r, Failed), x)
  {
    DeleteStaysHidden(s, b, x, {}, {}, RefreshOf(s, clientId, user), {}, RefreshOf(b, clientId, user));
    hide Held, Past, RefreshOf;
    MoveStaysHidden(if fate.NotExecuted? then s else Delete(s, {}, {}, RefreshOf(s, clientId, user)),
                    if fate.NotExecuted? then b else Delete(b, {}, {}, RefreshOf(b, clientId, user)), x, r, Failed);
  }

  // Access tokens are deleted, whichever: nothing of the two states is seen in them.
  lemma AccessStaysHidden(s: State, b: State, x: Swept, access: set<Token>, access': set<Token>, r: nat, pc: Pc,
                          gone: bool)
    requires Hidden(s, b, x) && r in s.requests && !pc.Redeeming? && !pc.Rotating?
    ensures Hidden(SetPc(if gone then Delete(s, {}, access, {}) else s, r, pc),
                   SetPc(if gone then Delete(b, {}, access', {}) else b, r, pc), x)
  {
    DeleteStaysHidden(s, b, x, {}, access, {}, access', {});
    hide Held, Past;
    MoveStaysHidden(if gone then Delete(s, {}, access, {}) else s, if gone then Delete(b, {}, access', {}) else b,
                    x, r, pc);
  }

  lemma AuthorizeStaysHidden(crypto: Crypto, s: State, b: State, x: Swept, a: Action)
    requires Hidden(s, b, x) && a.Authorize?
    ensures Hidden(Step(crypto, s, a), Step(crypto, b, a), x)
  {
    hide Held, AuthorizeHolds;
    if CanAuthorize(s, a.code, a.request, a.scope) {
      var s' := Step(crypto, s, a);
      CodesStayHidden(s, b, x, a.code, s'.codes[a.code], s'.log);
    }
  }

  lemma ArriveStaysHidden(s: State, b: State, x: Swept, r: nat, ask: TokenRequest)
    requires Hidden(s, b, x) && r !in s.requests
    ensures Hidden(s.(requests := s.requests[r := Request(ask, Arrived)]),
                   b.(requests := b.requests[r := Request(ask, Arrived)]), x)
  {
    var s' := s.(requests := s.requests[r := Request(ask, Arrived)]);
    forall q | q in s'.requests ensures !Holds(s', x, s'.requests[q].ask, s'.requests[q].pc) {
      if q != r {
        assert !Holds(s, x, s.requests[q].ask, s.requests[q].pc);
      }
    }
  }

  lemma SameRequests(s: State, b: State, x: Swept)
    requires Hidden(s, b, x)
    ensures b.clients == s.clients && b.requests == s.requests && b.log == s.log
  {
    hide Held, Past;
  }

  lemma RequestStepStaysHidden(crypto: Crypto, s: State, b: State, x: Swept, a: Action)
    requires Hidden(s, b, x) && !a.SetClients? && !a.DeleteRows? && !a.Authorize?
    requires (a.ReadCode? || a.ReadRefresh?) ==> a.now >= x.at
    ensures Hidden(RequestStep(crypto, s, a), RequestStep(crypto, b, a), x)
  {
    hide Hidden, AfterAuthenticate, AfterReadCode, AfterReadRefresh, ConsumeCodeStep, ConsumeRefreshStep, AfterDrop,
         SaveAccessStep, SaveRefreshStep, RespondStep, SetPc, Delete, AccessOf, RefreshOf;
    SameRequests(s, b, x);
    if a.r in s.requests {
      var pc, ask := s.requests[a.r].pc, s.requests[a.r].ask;
      MoveStaysHidden(s, b, x, a.r, Failed);
      match a
      case Authenticate(r, _) => if pc.Arrived? { AuthenticateStaysHidden(crypto, s, b, x, r); }
      case ReadCode(r, now, readable) =>
        if pc.CodeClient? && readable {
          ReadsAlike(crypto, s, b, x, ask, pc.client, now);
          MoveStaysHidden(s, b, x, r, AfterReadCode(crypto, s.codes, ask, pc.client, now));
        }
      case ConsumeCode(r, fate) =>
        if pc.Redeeming? && ask.code.Some? { ConsumeCodeStaysHidden(s, b, x, r, pc.client, pc.code, fate); }
      case ReadRefresh(r, now, readable) =>
        if pc.RefreshClient? && readable {
          ReadsAlike(crypto, s, b, x, ask, pc.client, now);
          MoveStaysHidden(s, b, x, r, AfterReadRefresh(s.refresh, ask, pc.client, now));
        }
      case RevokeAccess(r, fate) =>
        if pc.Revoking? {
          AccessStaysHidden(s, b, x, AccessOf(s, pc.clientId, pc.user), AccessOf(b, pc.clientId, pc.user), r,
                            if fate.Answered? then RevokingRefresh(pc.clientId, pc.user) else Failed,
                            !fate.NotExecuted?);
        }
      case RevokeRefresh(r, fate) =>
        if pc.RevokingRefresh? { RevokeRefreshStaysHidden(s, b, x, r, pc.clientId, pc.user, fate); }
      case ConsumeRefresh(r, fate) =>
        if pc.Rotating? && ask.refreshToken.Some? { ConsumeRefreshStaysHidden(s, b, x, r, pc.client, pc.token, fate); }
      case DropAccess(r, fate) =>
        if pc.Dropping? && ask.refreshToken.Some? {
          DropLeadsOn(ask, pc.client, pc.token);
          AccessStaysHidden(s, b, x, {pc.token.access}, {pc.token.access}, r,
                            if fate.Answered? then AfterDrop(ask, pc.client, pc.token) else Failed,
                            !fate.NotExecuted?);
        }
      case LoadUser(r, now, usable) =>
        if pc.Granted? && usable { MoveStaysHidden(s, b, x, r, Active(pc.client, pc.grant, now)); }
      case SaveAccess(r, token, fate) => if pc.Active? { SaveAccessStaysHidden(s, b, x, r, pc, token, fate); }
      case SaveRefresh(r, token, fate) => if pc.AccessSaved? { SaveRefreshStaysHidden(s, b, x, r, pc, token, fate); }
      case Respond(r, idToken) => if pc.Ready? { RespondStaysHidden(s, b, x, r, pc, idToken); }
      case _ =>
    }
  }

  lemma AuthenticateStaysHidden(crypto: Crypto, s: State, b: State, x: Swept, r: nat)
    requires Hidden(s, b, x) && r in s.requests
    ensures var pc := AfterAuthenticate(crypto, s.clients, s.requests[r].ask);
      Hidden(SetPc(s, r, pc), SetPc(b, r, pc), x)
  {
    hide Held, Past, ClientHolds, SetPc;
    MoveStaysHidden(s, b, x, r, AfterAuthenticate(crypto, s.clients, s.requests[r].ask));
  }

  lemma DropLeadsOn(ask: TokenRequest, client: Client, row: RefreshRow)
    requires ask.refreshToken.Some?
    ensures AfterDrop(ask, client, row).Granted? || AfterDrop(ask, client, row).Failed?
  {
  }

  lemma StepStaysHidden(crypto: Crypto, s: State, b: State, x: Swept, a: Action)
    requires Hidden(s, b, x) && ((a.ReadCode? || a.ReadRefresh?) ==> a.now >= x.at)
    ensures Hidden(Step(crypto, s, a), Step(crypto, b, a), x)
  {
    hide Hidden, RequestStep, SetPc, Delete;
    SameRequests(s, b, x);
    match a
    case SetClients(clients) => ClientsStayHidden(s, b, x, clients);
    case DeleteRows(codes, access, refresh) => DeleteStaysHidden(s, b, x, codes, access, refresh, access, refresh);
    case Authorize(_, _, _, _, _, _) => AuthorizeStaysHidden(crypto, s, b, x, a);
    case Arrive(r, ask) => if r !in s.requests { ArriveStaysHidden(s, b, x, r, ask); }
    case Crash(r) => if r in s.requests && !At(s, r).Responded? { MoveStaysHidden(s, b, x, r, Failed); }
    case _ => RequestStepStaysHidden(crypto, s, b, x, a);
  }

  lemma ClientsStayHidden(s: State, b: State, x: Swept, clients: map<string, Client>)
    requires Hidden(s, b, x)
    ensures Hidden(s.(clients := clients), b.(clients := clients), x)
  {
    var s' := s.(clients := clients);
    forall q | q in s'.requests ensures !Holds(s', x, s'.requests[q].ask, s'.requests[q].pc) {
      assert !Holds(s, x, s.requests[q].ask, s.requests[q].pc);
    }
  }

  lemma {:induction false} RunStaysHidden(crypto: Crypto, s: State, b: State, x: Swept, later: seq<Action>)
    requires Hidden(s, b, x) && ReadsFrom(later, x.at)
    ensures Hidden(Run(crypto, s, later), Run(crypto, b, later), x)
    decreases |later|
  {
    hide Hidden, Step;
    if later != [] {
      StepStaysHidden(crypto, s, b, x, later[0]);
      RunStaysHidden(crypto, Step(crypto, s, later[0]), Step(crypto, b, later[0]), x, later[1..]);
    }
  }

  // ---------------------------------------------------------------------------
  // The theorem.

  lemma BearersAreTaken(crypto: Crypto, s: State)
    requires Inv(crypto, s)
    ensures s.codes.Keys <= s.log.taken && s.refresh.Keys <= s.log.taken
  {
    hide BirthsInv, RequestsInv, IssueOk;
    forall c | c in s.codes ensures c in s.log.taken {
      assert CodeRowOk(s.log, c, s.codes[c]);
    }
    forall t | t in s.refresh ensures t in s.log.taken {
      assert RefreshRowOk(s.log, t, s.refresh[t]);
    }
  }

  lemma CleanedIsHidden(s: State, x: Swept, access: set<Token>)
    requires s.codes.Keys <= s.log.taken && s.refresh.Keys <= s.log.taken && Expired(s, x) && !Held(s, x)
    ensures Hidden(s, Cleaned(s, x, access), x)
  {
    hide Held;
  }

  function Consumption(s: State, r: nat): (a: Action) {
    if At(s, r).Redeeming? then ConsumeCode(r, Answered) else ConsumeRefresh(r, Answered)
  }

  // What the holder of a removed row is told: with the row it goes on, without it fails.
  lemma HolderIsTold(crypto: Crypto, s: State, x: Swept, access: set<Token>, r: nat)
    requires r in s.requests && Holds(s, x, s.requests[r].ask, s.requests[r].pc)
    ensures !At(Run(crypto, s, [Consumption(s, r)]), r).Failed?
    ensures At(Run(crypto, Cleaned(s, x, access), [Consumption(s, r)]), r).Failed?
  {
    hide RequestStep, Run;
    var b := Cleaned(s, x, access);
    OneStep(crypto, s, Consumption(s, r));
    OneStep(crypto, b, Consumption(s, r));
    if At(s, r).Redeeming? {
      OidcService.ConsumeCodeIs(crypto, s, r, Answered);
      OidcService.ConsumeCodeIs(crypto, b, r, Answered);
    } else {
      OidcService.ConsumeRefreshIs(crypto, s, r, Answered);
      OidcService.ConsumeRefreshIs(crypto, b, r, Answered);
    }
  }

  lemma OneStep(crypto: Crypto, s: State, a: Action)
    ensures Run(crypto, s, [a]) == Step(crypto, s, a)
  {
    hide Step;
    assert [a] == [] + [a];
    OidcService.RunNothing(crypto, s);
    OidcService.RunOneMore(crypto, s, [], a);
  }

  // Every later run, of reads that are not earlier than the cleanup, takes every request to
  // the same place, with the same answers.
  ghost predicate Invisible(crypto: Crypto, s: State, x: Swept, access: set<Token>) {
    forall later: seq<Action> | ReadsFrom(later, x.at) ::
      Run(crypto, Cleaned(s, x, access), later).requests == Run(crypto, s, later).requests
      && Run(crypto, Cleaned(s, x, access), later).log == Run(crypto, s, later).log
  }

  // After any run, removing expired rows is invisible exactly when no request has read one of
  // them that is unused and is about to consume it.
  lemma CleanupIsInvisibleIff(crypto: Crypto, actions: seq<Action>, x: Swept, access: set<Token>)
    requires Expired(Run(crypto, START, actions), x)
    ensures Invisible(crypto, Run(crypto, START, actions), x, access) <==> !Held(Run(crypto, START, actions), x)
  {
    hide Run, Inv, Holds, Cleaned, Expired;
    var s := Run(crypto, START, actions);
    var b := Cleaned(s, x, access);
    if Held(s, x) {
      var r :| r in s.requests && Holds(s, x, s.requests[r].ask, s.requests[r].pc);
      HolderIsTold(crypto, s, x, access, r);
      var a := Consumption(s, r);
      assert ReadsFrom([a], x.at);
      assert Run(crypto, b, [a]).requests != Run(crypto, s, [a]).requests;
    } else {
      StartIsOk(crypto);
      RunKeepsInv(crypto, START, actions);
      BearersAreTaken(crypto, s);
      CleanedIsHidden(s, x, access);
      forall later: seq<Action> | ReadsFrom(later, x.at)
        ensures Run(crypto, b, later).requests == Run(crypto, s, later).requests
        ensures Run(crypto, b, later).log == Run(crypto, s, later).log
      {
        RunStaysHidden(crypto, s, b, x, later);
      }
    }
  }

  // It happens: a code is read in its last second and swept before its guarded update.
  lemma CleanupCanBeSeen(crypto: Crypto)
    ensures var s := Run(crypto, START, OidcRevocation.Issuing(crypto, CODE_LIFETIME));
      var x := SweptAt(s, CODE_LIFETIME + 1);
      && Held(s, x)
      && At(Run(crypto, s, [ConsumeCode(0, Answered)]), 0).Granted?
      && At(Run(crypto, Cleaned(s, x, {}), [ConsumeCode(0, Answered)]), 0).Failed?
  {
    hide Run, RequestStep, OidcRevocation.ExampleClient, OidcRevocation.Issuing;
    OidcRevocation.AfterIssuing(crypto, CODE_LIFETIME);
    var s := Run(crypto, START, OidcRevocation.Issuing(crypto, CODE_LIFETIME));
    var x := SweptAt(s, CODE_LIFETIME + 1);
    assert Holds(s, x, s.requests[0].ask, s.requests[0].pc);
    HolderIsTold(crypto, s, x, {}, 0);
    OneStep(crypto, s, ConsumeCode(0, Answered));
    OidcService.ConsumeCodeIs(crypto, s, 0, Answered);
  }
}
