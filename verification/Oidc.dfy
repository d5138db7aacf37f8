// The OIDC grants (src/services/oidc.rs) as one machine: any number of token requests, each
// statement one atomic step, over the tables of codes, access tokens and refresh tokens.
// A statement may be lost or carried out with its answer lost, and rows may be deleted at
// any time (revocation, logout, cleanup). A bearer is identified with its fingerprint.
module Oidc {
  import opened Base
  import opened Scopes

  type Token = nat

  datatype Crypto = Crypto(s256: string -> string, secretMatches: (string, string) -> bool)

  datatype Client = Client(
    clientId: string, isPublic: bool, secretHash: string, isActive: bool, redirectUris: seq<string>,
    allowedScopes: seq<string>, codeGrant: bool, refreshGrant: bool, codeResponse: bool, requirePkce: bool,
    accessLifetime: int, refreshLifetime: int)

  datatype AuthorizeRequest = AuthorizeRequest(
    clientId: string, redirectUri: string, responseType: string, scope: Option<string>,
    challenge: Option<string>, challengeMethod: Option<string>)

  datatype CodeRow = CodeRow(
    clientId: string, user: string, redirectUri: string, scope: string, challenge: Option<string>,
    challengeMethod: Option<string>, session: Option<string>, used: bool, expiresAt: int)

  datatype AccessRow = AccessRow(clientId: string, user: string, scope: string, expiresAt: int)

  datatype RefreshRow = RefreshRow(
    clientId: string, user: string, access: Token, scope: string, session: Option<string>, used: bool,
    expiresAt: int)

  datatype TokenRequest = TokenRequest(
    grantType: string, code: Option<Token>, redirectUri: Option<string>, clientId: string, secret: Option<string>,
    verifier: Option<string>, refreshToken: Option<Token>, scope: Option<string>)

  // What a token response was earned with.
  datatype Source = FromCode(code: Token) | FromRefresh(token: Token)

  // What a request may issue once it has consumed its source.
  datatype Grant = Grant(source: Source, user: string, scope: string, session: Option<string>)

  datatype Pc =
    | Arrived
    | CodeClient(client: Client)
    | Redeeming(client: Client, code: CodeRow)
    | RefreshClient(client: Client)
    | Revoking(clientId: string, user: string)
    | RevokingRefresh(clientId: string, user: string)
    | Rotating(client: Client, token: RefreshRow)
    | Dropping(client: Client, token: RefreshRow)
    | Granted(client: Client, grant: Grant)
    | Active(client: Client, grant: Grant, now: int)
    | AccessSaved(client: Client, grant: Grant, now: int, access: Token)
    | Ready(client: Client, grant: Grant, access: Token, refresh: Option<Token>)
    | Responded(client: Client, grant: Grant)
    | Failed

  datatype Request = Request(ask: TokenRequest, pc: Pc)

  // History: how a code came about, how a refresh token did, what was answered.
  datatype Issue = Issue(row: CodeRow, client: Client, request: AuthorizeRequest)

  datatype Birth = Birth(row: RefreshRow, source: Source, minter: nat, code: Token, generation: nat)

  datatype Response = Response(client: Client, grant: Grant, access: Token, refresh: Option<Token>)

  // `taken` holds every bearer ever drawn, `winner` the request whose update consumed a
  // source, `minted` the refresh token a request saved.
  datatype History = History(
    taken: set<Token>,
    issued: map<Token, Issue>,
    born: map<Token, Birth>,
    winner: map<Source, nat>,
    minted: map<nat, Token>,
    responses: map<nat, Response>)

  datatype State = State(
    clients: map<string, Client>,
    codes: map<Token, CodeRow>,
    access: map<Token, AccessRow>,
    refresh: map<Token, RefreshRow>,
    requests: map<nat, Request>,
    log: History)

  datatype Action =
    | SetClients(clients: map<string, Client>)
    | DeleteRows(codes: set<Token>, access: set<Token>, refresh: set<Token>)
    | Authorize(code: Token, request: AuthorizeRequest, user: string, session: string, scope: string, now: int)
    | Arrive(r: nat, ask: TokenRequest)
    | Authenticate(r: nat, readable: bool)
    | ReadCode(r: nat, now: int, readable: bool)
    | ConsumeCode(r: nat, fate: Fate)
    | ReadRefresh(r: nat, now: int, readable: bool)
    | RevokeAccess(r: nat, fate: Fate)
    | RevokeRefresh(r: nat, fate: Fate)
    | ConsumeRefresh(r: nat, fate: Fate)
    | DropAccess(r: nat, fate: Fate)
    | LoadUser(r: nat, now: int, usable: bool)
    | SaveAccess(r: nat, token: Token, fate: Fate)
    | SaveRefresh(r: nat, token: Token, fate: Fate)
    | Respond(r: nat, idToken: bool)
    | Crash(r: nat)

  const START := State(map[], map[], map[], map[], map[], History({}, map[], map[], map[], map[], map[]))

  // ---------------------------------------------------------------------------
  // The checks.

  const S256 := "S256"
  const CODE_LIFETIME := 600

  predicate VerifierChar(c: char) {
    'a' <= c <= 'z' || 'A' <= c <= 'Z' || '0' <= c <= '9' || c == '-' || c == '.' || c == '_' || c == '~'
  }

  // Section 4.6 of RFC 7636, S256 only.
  predicate PkceHolds(crypto: Crypto, challenge: string, challengeMethod: Option<string>, verifier: string) {
    && 43 <= |verifier| <= 128
    && (forall i | 0 <= i < |verifier| :: VerifierChar(verifier[i]))
    && challengeMethod == Some(S256)
    && crypto.s256(verifier) == challenge
  }

  // Every response type asked for is a code, and codes are allowed.
  predicate AsksForCode(types: seq<string>, allowed: bool) {
    forall i | 0 <= i < |types| :: types[i] == "code" && allowed
  }

  lemma AsksForCodeIff(types: seq<string>, allowed: bool)
    ensures AsksForCode(types, allowed) <==> (forall w :: w in types ==> w == "code" && allowed)
  {
    if AsksForCode(types, allowed) {
      forall w | w in types ensures w == "code" && allowed {
        var i :| 0 <= i < |types| && types[i] == w;
      }
    } else {
      var i :| 0 <= i < |types| && !(types[i] == "code" && allowed);
      var w := types[i];
      assert w in types;
    }
  }

  // What create_authorization_code asks of a request, apart from its scope.
  predicate AuthorizeHolds(client: Client, request: AuthorizeRequest) {
    && client.isActive && client.clientId == request.clientId
    && request.redirectUri in client.redirectUris
    && AsksForCode(Words(request.responseType), client.codeResponse)
    && (client.requirePkce ==> request.challenge.Some?)
    && (request.challenge.Some? ==> request.challengeMethod == Some(S256))
  }

  predicate ClientHolds(crypto: Crypto, client: Client, ask: TokenRequest) {
    && client.isActive && client.clientId == ask.clientId
    && if ask.secret.Some? then crypto.secretMatches(client.secretHash, ask.secret.value) else client.isPublic
  }

  // What a request must show to redeem a code, apart from its being unused and in time.
  predicate CodeMatches(crypto: Crypto, client: Client, row: CodeRow, ask: TokenRequest) {
    && row.clientId == ask.clientId
    && ask.redirectUri == Some(row.redirectUri)
    && (client.isPublic ==> row.challenge.Some?)
    && (row.challenge.Some? ==>
          ask.verifier.Some? && PkceHolds(crypto, row.challenge.value, row.challengeMethod, ask.verifier.value))
  }

  // ---------------------------------------------------------------------------
  // The steps.

  function At(s: State, r: nat): (result: Pc) {
    if r in s.requests then s.requests[r].pc else Failed
  }

  function SetPc(s: State, r: nat, pc: Pc): (result: State)
    requires r in s.requests
  {
    s.(requests := s.requests[r := s.requests[r].(pc := pc)])
  }

  function Delete(s: State, codes: set<Token>, access: set<Token>, refresh: set<Token>): (r: State) {
    s.(codes := s.codes - codes, access := s.access - access, refresh := s.refresh - refresh)
  }

  ghost predicate CanAuthorize(s: State, code: Token, request: AuthorizeRequest, scope: string) {
    && code !in s.log.taken && request.clientId in s.clients
    && AuthorizeHolds(s.clients[request.clientId], request)
    && Grants(s.clients[request.clientId].allowedScopes, request.scope, scope)
  }

  function NewCode(request: AuthorizeRequest, user: string, session: string, scope: string, now: int): (r: CodeRow) {
    CodeRow(request.clientId, user, request.redirectUri, scope, request.challenge, request.challengeMethod,
            Some(session), false, now + CODE_LIFETIME)
  }

  function AddCode(s: State, code: Token, issue: Issue): (r: State) {
    s.(codes := s.codes[code := issue.row],
       log := s.log.(issued := s.log.issued[code := issue], taken := s.log.taken + {code}))
  }

  function AfterAuthenticate(crypto: Crypto, clients: map<string, Client>, ask: TokenRequest): (r: Pc) {
    if ask.clientId !in clients || !ClientHolds(crypto, clients[ask.clientId], ask) then Failed
    else
      var client := clients[ask.clientId];
      if ask.grantType == "authorization_code" && ask.code.Some? && ask.redirectUri.Some? && client.codeGrant then
        CodeClient(client)
      else if ask.grantType == "refresh_token" && ask.refreshToken.Some? && client.refreshGrant then
        RefreshClient(client)
      else Failed
  }

  function AfterReadCode(crypto: Crypto, codes: map<Token, CodeRow>, ask: TokenRequest, client: Client, now: int):
    (r: Pc)
  {
    if ask.code.None? || ask.code.value !in codes then Failed
    else
      var row := codes[ask.code.value];
      if !row.used && row.expiresAt >= now && CodeMatches(crypto, client, row, ask) then Redeeming(client, row)
      else Failed
  }

  function Consumed(h: History, source: Source, r: nat): (result: History) {
    h.(winner := h.winner[source := r])
  }

  // UPDATE ... SET used = true WHERE ... AND used = false. The history notes who it was.
  function MarkCodeUsed(s: State, code: Token, r: nat): (result: State) {
    if code in s.codes && !s.codes[code].used then
      s.(codes := s.codes[code := s.codes[code].(used := true)],
         log := Consumed(s.log, FromCode(code), r))
    else s
  }

  function MarkRefreshUsed(s: State, token: Token, r: nat): (result: State) {
    if token in s.refresh && !s.refresh[token].used then
      s.(refresh := s.refresh[token := s.refresh[token].(used := true)],
         log := Consumed(s.log, FromRefresh(token), r))
    else s
  }

  function CodeGrantOf(code: Token, row: CodeRow): (r: Grant) {
    Grant(FromCode(code), row.user, row.scope, row.session)
  }

  function ConsumeCodeStep(s: State, r: nat, client: Client, row: CodeRow, fate: Fate): (result: State)
    requires r in s.requests && s.requests[r].ask.code.Some?
  {
    var code := s.requests[r].ask.code.value;
    var won := fate.Answered? && code in s.codes && !s.codes[code].used;
    SetPc(if fate.NotExecuted? then s else MarkCodeUsed(s, code, r), r,
          if won then Granted(client, CodeGrantOf(code, row)) else Failed)
  }

  // A token that was used already gives the whole family away.
  function AfterReadRefresh(refresh: map<Token, RefreshRow>, ask: TokenRequest, client: Client, now: int): (r: Pc) {
    if ask.refreshToken.None? || ask.refreshToken.value !in refresh then Failed
    else
      var row := refresh[ask.refreshToken.value];
      if row.clientId != ask.clientId || row.expiresAt < now then Failed
      else if row.used then Revoking(row.clientId, row.user)
      else Rotating(client, row)
  }

  ghost function AccessOf(s: State, clientId: string, user: string): (r: set<Token>) {
    set t | t in s.access && s.access[t].clientId == clientId && s.access[t].user == user
  }

  ghost function RefreshOf(s: State, clientId: string, user: string): (r: set<Token>) {
    set t | t in s.refresh && s.refresh[t].clientId == clientId && s.refresh[t].user == user
  }

  function ConsumeRefreshStep(s: State, r: nat, client: Client, row: RefreshRow, fate: Fate): (result: State)
    requires r in s.requests && s.requests[r].ask.refreshToken.Some?
  {
    var token := s.requests[r].ask.refreshToken.value;
    var won := fate.Answered? && token in s.refresh && !s.refresh[token].used;
    SetPc(if fate.NotExecuted? then s else MarkRefreshUsed(s, token, r), r,
          if won then Dropping(client, row) else Failed)
  }

  // The scope is looked at only after the old token is gone.
  function AfterDrop(ask: TokenRequest, client: Client, row: RefreshRow): (r: Pc)
    requires ask.refreshToken.Some?
  {
    var scope := RefreshScope(row.scope, ask.scope);
    if scope.Some? then
      Granted(client, Grant(FromRefresh(ask.refreshToken.value), row.user, scope.value, row.session))
    else Failed
  }

  function SaveAccessStep(s: State, r: nat, pc: Pc, token: Token, fate: Fate): (result: State)
    requires r in s.requests && pc.Active?
  {
    var row := AccessRow(pc.client.clientId, pc.grant.user, pc.grant.scope, pc.now + pc.client.accessLifetime);
    var s' := s.(access := if fate.NotExecuted? then s.access else s.access[token := row],
                 log := s.log.(taken := s.log.taken + {token}));
    SetPc(s', r, if fate.Answered? then AccessSaved(pc.client, pc.grant, pc.now, token) else Failed)
  }

  function NewRefresh(pc: Pc): (r: RefreshRow)
    requires pc.AccessSaved?
  {
    RefreshRow(pc.client.clientId, pc.grant.user, pc.access, pc.grant.scope, pc.grant.session, false,
               pc.now + pc.client.refreshLifetime)
  }

  function NewBirth(h: History, r: nat, pc: Pc): (result: Birth)
    requires pc.AccessSaved?
  {
    match pc.grant.source
    case FromCode(c) => Birth(NewRefresh(pc), pc.grant.source, r, c, 0)
    case FromRefresh(t) =>
      if t in h.born then
        Birth(NewRefresh(pc), pc.grant.source, r, h.born[t].code, h.born[t].generation + 1)
      else Birth(NewRefresh(pc), pc.grant.source, r, t, 0)
  }

  function Minted(h: History, r: nat, pc: Pc, token: Token): (result: History)
    requires pc.AccessSaved?
  {
    h.(born := h.born[token := NewBirth(h, r, pc)], minted := h.minted[r := token], taken := h.taken + {token})
  }

  function SaveRefreshStep(s: State, r: nat, pc: Pc, token: Token, fate: Fate): (result: State)
    requires r in s.requests && pc.AccessSaved?
  {
    if !pc.client.refreshGrant then SetPc(s, r, Ready(pc.client, pc.grant, pc.access, None))
    else if fate.NotExecuted? || token in s.log.taken then SetPc(s, r, Failed)
    else
      var s' := s.(refresh := s.refresh[token := NewRefresh(pc)], log := Minted(s.log, r, pc, token));
      SetPc(s', r, if fate.Answered? then Ready(pc.client, pc.grant, pc.access, Some(token)) else Failed)
  }

  function Answer(h: History, r: nat, response: Response): (result: History) {
    h.(responses := h.responses[r := response])
  }

  // An ID token is part of the answer when the scope holds `openid`, and may fail.
  function RespondStep(s: State, r: nat, pc: Pc, idToken: bool): (result: State)
    requires r in s.requests && pc.Ready?
  {
    if OPENID in Words(pc.grant.scope) && !idToken then SetPc(s, r, Failed)
    else
      SetPc(s.(log := Answer(s.log, r, Response(pc.client, pc.grant, pc.access, pc.refresh))), r,
            Responded(pc.client, pc.grant))
  }

  // One step. A step that is not due changes nothing.
  ghost function Step(crypto: Crypto, s: State, a: Action): (r: State) {
    match a
    case SetClients(clients) => s.(clients := clients)
    case DeleteRows(codes, access, refresh) => Delete(s, codes, access, refresh)
    case Authorize(code, request, user, session, scope, now) =>
      if CanAuthorize(s, code, request, scope) then
        AddCode(s, code, Issue(NewCode(request, user, session, scope, now), s.clients[request.clientId], request))
      else s
    case Arrive(r, ask) => if r in s.requests then s else s.(requests := s.requests[r := Request(ask, Arrived)])
    case Crash(r) => if r in s.requests && !At(s, r).Responded? then SetPc(s, r, Failed) else s
    case _ => RequestStep(crypto, s, a)
  }

  ghost function RequestStep(crypto: Crypto, s: State, a: Action): (r: State)
    requires !a.SetClients? && !a.DeleteRows? && !a.Authorize?
  {
    if a.r !in s.requests then s
    else
      var pc, ask := s.requests[a.r].pc, s.requests[a.r].ask;
      match a
      case Authenticate(r, readable) =>
        if pc.Arrived? then SetPc(s, r, if readable then AfterAuthenticate(crypto, s.clients, ask) else Failed) else s
      case ReadCode(r, now, readable) =>
        if pc.CodeClient? then
          SetPc(s, r, if readable then AfterReadCode(crypto, s.codes, ask, pc.client, now) else Failed)
        else s
      case ConsumeCode(r, fate) =>
        if pc.Redeeming? && ask.code.Some? then ConsumeCodeStep(s, r, pc.client, pc.code, fate) else s
      case ReadRefresh(r, now, readable) =>
        if pc.RefreshClient? then
          SetPc(s, r, if readable then AfterReadRefresh(s.refresh, ask, pc.client, now) else Failed)
        else s
      case RevokeAccess(r, fate) =>
        if pc.Revoking? then
          SetPc(if fate.NotExecuted? then s else Delete(s, {}, AccessOf(s, pc.clientId, pc.user), {}), r,
                if fate.Answered? then RevokingRefresh(pc.clientId, pc.user) else Failed)
        else s
      case RevokeRefresh(r, fate) =>
        if pc.RevokingRefresh? then
          SetPc(if fate.NotExecuted? then s else Delete(s, {}, {}, RefreshOf(s, pc.clientId, pc.user)), r, Failed)
        else s
      case ConsumeRefresh(r, fate) =>
        if pc.Rotating? && ask.refreshToken.Some? then ConsumeRefreshStep(s, r, pc.client, pc.token, fate) else s
      case DropAccess(r, fate) =>
        if pc.Dropping? && ask.refreshToken.Some? then
          SetPc(if fate.NotExecuted? then s else Delete(s, {}, {pc.token.access}, {}), r,
                if fate.Answered? then AfterDrop(ask, pc.client, pc.token) else Failed)
        else s
      case LoadUser(r, now, usable) =>
        if pc.Granted? then SetPc(s, r, if usable then Active(pc.client, pc.grant, now) else Failed) else s
      case SaveAccess(r, token, fate) =>
        if pc.Active? && token !in s.log.taken then SaveAccessStep(s, r, pc, token, fate) else s
      case SaveRefresh(r, token, fate) => if pc.AccessSaved? then SaveRefreshStep(s, r, pc, token, fate) else s
      case Respond(r, idToken) => if pc.Ready? then RespondStep(s, r, pc, idToken) else s
      case _ => s
  }

  ghost function Run(crypto: Crypto, s: State, actions: seq<Action>): (r: State)
    decreases |actions|
  {
    if actions == [] then s else Run(crypto, Step(crypto, s, actions[0]), actions[1..])
  }

  // ---------------------------------------------------------------------------
  // The invariant.

  // A stored row is what was issued, except that it may be used; if it is not, nobody has
  // consumed it.
  ghost predicate CodeRowOk(h: History, c: Token, row: CodeRow) {
    && c in h.issued && row.(used := false) == h.issued[c].row
    && (!row.used ==> FromCode(c) !in h.winner)
  }

  ghost predicate RefreshRowOk(h: History, t: Token, row: RefreshRow) {
    && t in h.born && row.(used := false) == h.born[t].row
    && (!row.used ==> FromRefresh(t) !in h.winner)
  }

  ghost predicate CodesInv(h: History, codes: map<Token, CodeRow>) {
    forall c | c in codes :: CodeRowOk(h, c, codes[c])
  }

  ghost predicate RefreshInv(h: History, refresh: map<Token, RefreshRow>) {
    forall t | t in refresh :: RefreshRowOk(h, t, refresh[t])
  }

  ghost predicate IssueOk(issue: Issue) {
    && AuthorizeHolds(issue.client, issue.request)
    && Grants(issue.client.allowedScopes, issue.request.scope, issue.row.scope)
    && issue.row.clientId == issue.request.clientId && issue.row.redirectUri == issue.request.redirectUri
    && issue.row.challenge == issue.request.challenge && issue.row.challengeMethod == issue.request.challengeMethod
  }

  ghost predicate Known(h: History, source: Source) {
    match source
    case FromCode(c) => c in h.issued
    case FromRefresh(t) => t in h.born
  }

  // The same client and user, and no wider scope.
  ghost predicate Inherits(row: RefreshRow, clientId: string, user: string, scope: string) {
    row.clientId == clientId && row.user == user && ScopeSet(row.scope) <= ScopeSet(scope)
  }

  ghost predicate BirthOk(h: History, t: Token, b: Birth) {
    && !b.row.used
    && b.source in h.winner && h.winner[b.source] == b.minter
    && b.minter in h.minted && h.minted[b.minter] == t
    && b.code in h.issued
    && Inherits(b.row, h.issued[b.code].row.clientId, h.issued[b.code].row.user, h.issued[b.code].row.scope)
    && match b.source
       case FromCode(c) => b.code == c && b.generation == 0
       case FromRefresh(p) =>
         && p in h.born && b.code == h.born[p].code && b.generation == h.born[p].generation + 1
         && Inherits(b.row, h.born[p].row.clientId, h.born[p].row.user, h.born[p].row.scope)
  }

  ghost predicate BirthsInv(h: History) {
    forall t | t in h.born :: BirthOk(h, t, h.born[t])
  }

  ghost predicate BearersInv(h: History) {
    && (forall c | c in h.issued :: IssueOk(h.issued[c]) && c in h.taken)
    && (forall t | t in h.born :: t in h.taken)
    && (forall source | source in h.winner :: Known(h, source))
  }

  // What a request has in hand is covered by what it has consumed.
  ghost predicate GrantOk(crypto: Crypto, h: History, ask: TokenRequest, client: Client, g: Grant) {
    match g.source
    case FromCode(c) =>
      && ask.code == Some(c) && c in h.issued && CodeMatches(crypto, client, h.issued[c].row, ask)
      && g.user == h.issued[c].row.user && g.scope == h.issued[c].row.scope
    case FromRefresh(t) =>
      && ask.refreshToken == Some(t) && t in h.born && h.born[t].row.clientId == ask.clientId
      && g.user == h.born[t].row.user && ScopeSet(g.scope) <= ScopeSet(h.born[t].row.scope)
  }

  ghost predicate Won(h: History, r: nat, source: Source) {
    source in h.winner && h.winner[source] == r
  }

  ghost predicate RotationOk(h: History, ask: TokenRequest, row: RefreshRow) {
    && ask.refreshToken.Some? && ask.refreshToken.value in h.born
    && row == h.born[ask.refreshToken.value].row && row.clientId == ask.clientId
  }

  ghost predicate HandOk(crypto: Crypto, h: History, r: nat, ask: TokenRequest, client: Client, g: Grant) {
    ClientHolds(crypto, client, ask) && Won(h, r, g.source) && GrantOk(crypto, h, ask, client, g)
  }

  ghost predicate MintedFor(h: History, refresh: Option<Token>, source: Source) {
    refresh.Some? ==> refresh.value in h.born && h.born[refresh.value].source == source
  }

  predicate MayHaveMinted(pc: Pc) {
    pc.Ready? || pc.Responded? || pc.Failed?
  }

  ghost predicate PcOk(crypto: Crypto, h: History, r: nat, ask: TokenRequest, pc: Pc) {
    match pc
    case CodeClient(client) => ClientHolds(crypto, client, ask)
    case RefreshClient(client) => ClientHolds(crypto, client, ask)
    case Redeeming(client, row) =>
      ClientHolds(crypto, client, ask) && ask.code.Some?
      && GrantOk(crypto, h, ask, client, CodeGrantOf(ask.code.value, row))
    case Rotating(client, row) => ClientHolds(crypto, client, ask) && RotationOk(h, ask, row)
    case Dropping(client, row) =>
      ClientHolds(crypto, client, ask) && RotationOk(h, ask, row)
      && Won(h, r, FromRefresh(ask.refreshToken.value))
    case Granted(client, g) => HandOk(crypto, h, r, ask, client, g)
    case Active(client, g, _) => HandOk(crypto, h, r, ask, client, g)
    case AccessSaved(client, g, _, _) => HandOk(crypto, h, r, ask, client, g)
    case Ready(client, g, _, refresh) => HandOk(crypto, h, r, ask, client, g) && MintedFor(h, refresh, g.source)
    case Responded(client, g) => HandOk(crypto, h, r, ask, client, g)
    case _ => true
  }

  ghost predicate RequestOk(crypto: Crypto, h: History, r: nat, request: Request) {
    && (r in h.minted ==> MayHaveMinted(request.pc))
    && (r in h.responses ==>
          && request.pc == Responded(h.responses[r].client, h.responses[r].grant)
          && MintedFor(h, h.responses[r].refresh, h.responses[r].grant.source))
    && PcOk(crypto, h, r, request.ask, request.pc)
  }

  ghost predicate RequestsInv(crypto: Crypto, h: History, requests: map<nat, Request>) {
    && h.minted.Keys <= requests.Keys && h.responses.Keys <= requests.Keys
    && forall r | r in requests :: RequestOk(crypto, h, r, requests[r])
  }

  ghost predicate HistoryInv(h: History) {
    BearersInv(h) && BirthsInv(h)
  }

  ghost predicate Inv(crypto: Crypto, s: State) {
    HistoryInv(s.log) && CodesInv(s.log, s.codes) && RefreshInv(s.log, s.refresh)
    && RequestsInv(crypto, s.log, s.requests)
  }

  // History only grows.
  ghost predicate Grows(h: History, h': History) {
    && (forall c | c in h.issued :: c in h'.issued && h'.issued[c] == h.issued[c])
    && (forall t | t in h.born :: t in h'.born && h'.born[t] == h.born[t])
    && (forall source | source in h.winner :: Won(h', h.winner[source], source))
    && (forall r | r in h.minted :: r in h'.minted && h'.minted[r] == h.minted[r])
  }

  lemma GrowthKeepsPc(crypto: Crypto, h: History, h': History, r: nat, ask: TokenRequest, pc: Pc)
    requires PcOk(crypto, h, r, ask, pc) && Grows(h, h')
    ensures PcOk(crypto, h', r, ask, pc)
  {
    hide ClientHolds, CodeMatches;
  }

  lemma GrowthKeepsMinted(h: History, h': History, refresh: Option<Token>, source: Source)
    requires MintedFor(h, refresh, source) && Grows(h, h')
    ensures MintedFor(h', refresh, source)
  {
  }

  lemma GrowthKeepsBirth(h: History, h': History, t: Token, b: Birth)
    requires BirthOk(h, t, b) && Grows(h, h')
    ensures BirthOk(h', t, b)
  {
    hide Inherits;
  }

  lemma BirthsKept(h: History, h': History)
    requires BirthsInv(h) && Grows(h, h')
    ensures forall t | t in h.born :: BirthOk(h', t, h.born[t])
  {
    hide BirthOk, Grows;
    forall t | t in h.born ensures BirthOk(h', t, h.born[t]) {
      GrowthKeepsBirth(h, h', t, h.born[t]);
    }
  }

  // Only request r moves, and only for it the history says something new.
  lemma RequestsKept(crypto: Crypto, h: History, h': History, requests: map<nat, Request>, r: nat, request: Request)
    requires RequestsInv(crypto, h, requests) && Grows(h, h')
    requires forall q | q != r :: q in h'.minted ==> q in h.minted
    requires forall q | q != r && q in h'.responses :: q in h.responses && h'.responses[q] == h.responses[q]
    requires RequestOk(crypto, h', r, request)
    ensures RequestsInv(crypto, h', requests[r := request])
  {
    hide PcOk, Grows, MintedFor;
    forall q | q in requests && q != r ensures RequestOk(crypto, h', q, requests[q]) {
      assert RequestOk(crypto, h, q, requests[q]);
      if q in h'.responses {
        GrowthKeepsMinted(h, h', h.responses[q].refresh, h.responses[q].grant.source);
      }
      GrowthKeepsPc(crypto, h, h', q, requests[q].ask, requests[q].pc);
    }
  }

  lemma RequestsSame(crypto: Crypto, h: History, h': History, requests: map<nat, Request>)
    requires RequestsInv(crypto, h, requests) && Grows(h, h')
    requires h'.minted == h.minted && h'.responses == h.responses
    ensures RequestsInv(crypto, h', requests)
  {
    hide PcOk, Grows, MintedFor;
    forall q | q in requests ensures RequestOk(crypto, h', q, requests[q]) {
      assert RequestOk(crypto, h, q, requests[q]);
      if q in h'.responses {
        GrowthKeepsMinted(h, h', h.responses[q].refresh, h.responses[q].grant.source);
      }
      GrowthKeepsPc(crypto, h, h', q, requests[q].ask, requests[q].pc);
    }
  }

  // ---------------------------------------------------------------------------
  // Each step keeps it.

  lemma SetPcKeepsInv(crypto: Crypto, s: State, r: nat, pc: Pc)
    requires Inv(crypto, s) && r in s.requests && RequestOk(crypto, s.log, r, s.requests[r].(pc := pc))
    ensures Inv(crypto, SetPc(s, r, pc))
  {
    hide HistoryInv, CodesInv, RefreshInv, RequestOk;
    assert Grows(s.log, s.log);
    RequestsKept(crypto, s.log, s.log, s.requests, r, s.requests[r].(pc := pc));
  }

  lemma DeleteKeepsInv(crypto: Crypto, s: State, codes: set<Token>, access: set<Token>, refresh: set<Token>)
    requires Inv(crypto, s)
    ensures Inv(crypto, Delete(s, codes, access, refresh))
  {
    hide HistoryInv, RequestsInv, CodeRowOk, RefreshRowOk;
  }

  lemma ArriveKeepsInv(crypto: Crypto, s: State, r: nat, ask: TokenRequest)
    requires Inv(crypto, s) && r !in s.requests
    ensures Inv(crypto, s.(requests := s.requests[r := Request(ask, Arrived)]))
  {
    hide HistoryInv, CodesInv, RefreshInv;
    assert Grows(s.log, s.log);
    RequestsKept(crypto, s.log, s.log, s.requests, r, Request(ask, Arrived));
  }

  // Only a bearer never seen before is added.
  lemma AddCodeKeepsInv(crypto: Crypto, s: State, code: Token, issue: Issue)
    requires Inv(crypto, s) && code !in s.log.taken && IssueOk(issue) && !issue.row.used
    ensures Inv(crypto, AddCode(s, code, issue))
  {
    hide RequestsInv, BirthOk, IssueOk;
    var h, h' := s.log, AddCode(s, code, issue).log;
    assert FromCode(code) !in h.winner by {
      assert FromCode(code) in h.winner ==> Known(h, FromCode(code));
    }
    RequestsSame(crypto, h, h', s.requests);
    BirthsKept(h, h');
  }

  lemma ConsumedKeepsHistory(h: History, source: Source, r: nat)
    requires HistoryInv(h) && source !in h.winner && Known(h, source)
    ensures HistoryInv(Consumed(h, source, r)) && Grows(h, Consumed(h, source, r))
  {
    hide BirthOk, IssueOk;
    BirthsKept(h, Consumed(h, source, r));
  }

  lemma MarkCodeKeepsInv(crypto: Crypto, s: State, code: Token, r: nat)
    requires Inv(crypto, s)
    ensures Inv(crypto, MarkCodeUsed(s, code, r)) && Grows(s.log, MarkCodeUsed(s, code, r).log)
  {
    hide RequestsInv, HistoryInv;
    if code in s.codes && !s.codes[code].used {
      assert CodeRowOk(s.log, code, s.codes[code]);
      ConsumedKeepsHistory(s.log, FromCode(code), r);
      RequestsSame(crypto, s.log, Consumed(s.log, FromCode(code), r), s.requests);
    }
  }

  lemma MarkRefreshKeepsInv(crypto: Crypto, s: State, token: Token, r: nat)
    requires Inv(crypto, s)
    ensures Inv(crypto, MarkRefreshUsed(s, token, r)) && Grows(s.log, MarkRefreshUsed(s, token, r).log)
  {
    hide RequestsInv, HistoryInv;
    if token in s.refresh && !s.refresh[token].used {
      assert RefreshRowOk(s.log, token, s.refresh[token]);
      ConsumedKeepsHistory(s.log, FromRefresh(token), r);
      RequestsSame(crypto, s.log, Consumed(s.log, FromRefresh(token), r), s.requests);
    }
  }

  lemma OkOf(crypto: Crypto, s: State, r: nat)
    requires Inv(crypto, s) && r in s.requests
    ensures RequestOk(crypto, s.log, r, s.requests[r])
  {
    hide HistoryInv, CodesInv, RefreshInv, RequestOk;
  }

  lemma ConsumeCodeKeepsInv(crypto: Crypto, s: State, r: nat, fate: Fate)
    requires Inv(crypto, s) && At(s, r).Redeeming? && s.requests[r].ask.code.Some?
    ensures Inv(crypto, ConsumeCodeStep(s, r, At(s, r).client, At(s, r).code, fate))
  {
    hide Inv, GrantOk, ClientHolds;
    var code := s.requests[r].ask.code.value;
    var s1 := if fate.NotExecuted? then s else MarkCodeUsed(s, code, r);
    MarkCodeKeepsInv(crypto, s, code, r);
    OkOf(crypto, s1, r);
    var won := fate.Answered? && code in s.codes && !s.codes[code].used;
    SetPcKeepsInv(crypto, s1, r, if won then Granted(At(s, r).client, CodeGrantOf(code, At(s, r).code)) else Failed);
  }

  lemma ConsumeRefreshKeepsInv(crypto: Crypto, s: State, r: nat, fate: Fate)
    requires Inv(crypto, s) && At(s, r).Rotating? && s.requests[r].ask.refreshToken.Some?
    ensures Inv(crypto, ConsumeRefreshStep(s, r, At(s, r).client, At(s, r).token, fate))
  {
    hide Inv, GrantOk, ClientHolds, RotationOk;
    var token := s.requests[r].ask.refreshToken.value;
    var s1 := if fate.NotExecuted? then s else MarkRefreshUsed(s, token, r);
    MarkRefreshKeepsInv(crypto, s, token, r);
    OkOf(crypto, s1, r);
    var won := fate.Answered? && token in s.refresh && !s.refresh[token].used;
    SetPcKeepsInv(crypto, s1, r, if won then Dropping(At(s, r).client, At(s, r).token) else Failed);
  }

  lemma DropKeepsInv(crypto: Crypto, s: State, r: nat, fate: Fate)
    requires Inv(crypto, s) && At(s, r).Dropping? && s.requests[r].ask.refreshToken.Some?
    ensures var pc := At(s, r);
      Inv(crypto, SetPc(if fate.NotExecuted? then s else Delete(s, {}, {pc.token.access}, {}), r,
                        if fate.Answered? then AfterDrop(s.requests[r].ask, pc.client, pc.token) else Failed))
  {
    hide Inv, ClientHolds;
    var pc, ask := At(s, r), s.requests[r].ask;
    var s1 := if fate.NotExecuted? then s else Delete(s, {}, {pc.token.access}, {});
    DeleteKeepsInv(crypto, s, {}, {pc.token.access}, {});
    OkOf(crypto, s1, r);
    RefreshNeverWidens(pc.token.scope, ask.scope);
    SetPcKeepsInv(crypto, s1, r, if fate.Answered? then AfterDrop(ask, pc.client, pc.token) else Failed);
  }

  lemma AccessSavedKeepsInv(crypto: Crypto, s: State, r: nat, token: Token, fate: Fate)
    requires Inv(crypto, s) && At(s, r).Active?
    ensures Inv(crypto, SaveAccessStep(s, r, At(s, r), token, fate))
  {
    hide Inv, HandOk;
    var s' := SaveAccessStep(s, r, At(s, r), token, fate);
    OkOf(crypto, s, r);
    SetPcKeepsInv(crypto, s, r, s'.requests[r].pc);
    TakenKeepsInv(crypto, SetPc(s, r, s'.requests[r].pc), token, s'.access);
  }

  lemma TakenKeepsInv(crypto: Crypto, s: State, token: Token, access: map<Token, AccessRow>)
    requires Inv(crypto, s)
    ensures Inv(crypto, s.(access := access, log := s.log.(taken := s.log.taken + {token})))
  {
    hide RequestsInv, IssueOk, BirthOk;
    var h' := s.log.(taken := s.log.taken + {token});
    RequestsSame(crypto, s.log, h', s.requests);
    BirthsKept(s.log, h');
  }

  lemma MintGrows(h: History, r: nat, pc: Pc, token: Token)
    requires BearersInv(h) && pc.AccessSaved? && r !in h.minted && token !in h.taken
    ensures Grows(h, Minted(h, r, pc, token)) && token !in h.born && FromRefresh(token) !in h.winner
  {
    hide IssueOk, NewBirth;
    assert FromRefresh(token) in h.winner ==> Known(h, FromRefresh(token));
  }

  lemma NewBirthOk(crypto: Crypto, h: History, r: nat, ask: TokenRequest, pc: Pc, token: Token)
    requires BirthsInv(h) && pc.AccessSaved? && r !in h.minted
    requires HandOk(crypto, h, r, ask, pc.client, pc.grant)
    ensures BirthOk(h.(minted := h.minted[r := token]), token, NewBirth(h, r, pc))
  {
    match pc.grant.source
    case FromCode(c) =>
    case FromRefresh(t) => assert BirthOk(h, t, h.born[t]);
  }

  lemma MintKeepsHistory(crypto: Crypto, h: History, r: nat, ask: TokenRequest, pc: Pc, token: Token)
    requires HistoryInv(h) && pc.AccessSaved? && r !in h.minted && token !in h.taken
    requires HandOk(crypto, h, r, ask, pc.client, pc.grant)
    ensures HistoryInv(Minted(h, r, pc, token)) && Grows(h, Minted(h, r, pc, token))
    ensures FromRefresh(token) !in h.winner
  {
    hide NewBirth, BirthOk, IssueOk, HandOk;
    var h1, h' := h.(minted := h.minted[r := token]), Minted(h, r, pc, token);
    MintGrows(h, r, pc, token);
    BirthsKept(h, h');
    NewBirthOk(crypto, h, r, ask, pc, token);
    assert Grows(h1, h');
    GrowthKeepsBirth(h1, h', token, NewBirth(h, r, pc));
  }

  lemma NewBirthRow(h: History, r: nat, pc: Pc)
    requires pc.AccessSaved?
    ensures NewBirth(h, r, pc).row == NewRefresh(pc)
  {
  }

  lemma MintKeepsRows(s: State, r: nat, pc: Pc, token: Token)
    requires CodesInv(s.log, s.codes) && RefreshInv(s.log, s.refresh) && pc.AccessSaved?
    requires token !in s.log.born && FromRefresh(token) !in s.log.winner
    ensures CodesInv(Minted(s.log, r, pc, token), s.codes)
    ensures RefreshInv(Minted(s.log, r, pc, token), s.refresh[token := NewRefresh(pc)])
  {
    hide NewBirth;
    NewBirthRow(s.log, r, pc);
  }

  // The refresh token is stored and noted.
  lemma MintedKeepsInv(crypto: Crypto, s: State, r: nat, token: Token, pc: Pc)
    requires Inv(crypto, s) && At(s, r).AccessSaved? && token !in s.log.taken && r !in s.log.minted
    requires HandOk(crypto, s.log, r, s.requests[r].ask, At(s, r).client, At(s, r).grant)
    requires var h' := Minted(s.log, r, At(s, r), token); RequestOk(crypto, h', r, s.requests[r].(pc := pc))
    ensures Inv(crypto, SetPc(s.(refresh := s.refresh[token := NewRefresh(At(s, r))],
                                 log := Minted(s.log, r, At(s, r), token)), r, pc))
  {
    hide HistoryInv, CodesInv, RefreshInv, RequestsInv, RequestOk, HandOk, Minted, Grows, NewRefresh;
    MintKeepsHistory(crypto, s.log, r, s.requests[r].ask, At(s, r), token);
    MintedKeys(s.log, r, At(s, r), token);
    BearersHold(s.log, token);
    MintKeepsRows(s, r, At(s, r), token);
    RequestsKept(crypto, s.log, Minted(s.log, r, At(s, r), token), s.requests, r, s.requests[r].(pc := pc));
  }

  // The request is as well covered by the new history, with its token or without.
  lemma MinterIsOk(crypto: Crypto, h: History, r: nat, ask: TokenRequest, pc: Pc, token: Token)
    requires HistoryInv(h) && RequestOk(crypto, h, r, Request(ask, pc)) && pc.AccessSaved? && token !in h.taken
    ensures var h' := Minted(h, r, pc, token);
      && RequestOk(crypto, h', r, Request(ask, Ready(pc.client, pc.grant, pc.access, Some(token))))
      && RequestOk(crypto, h', r, Request(ask, Failed))
  {
    hide HistoryInv, HandOk, Grows;
    MintKeepsHistory(crypto, h, r, ask, pc, token);
    MintedKeys(h, r, pc, token);
    GrowthKeepsPc(crypto, h, Minted(h, r, pc, token), r, ask, pc);
  }

  lemma MintKeepsInv(crypto: Crypto, s: State, r: nat, token: Token, fate: Fate)
    requires Inv(crypto, s) && At(s, r).AccessSaved?
    ensures Inv(crypto, SaveRefreshStep(s, r, At(s, r), token, fate))
  {
    hide HistoryInv, CodesInv, RefreshInv, RequestsInv, HandOk, Minted, Grows, NewRefresh;
    var pc, s' := At(s, r), SaveRefreshStep(s, r, At(s, r), token, fate);
    OkOf(crypto, s, r);
    if pc.client.refreshGrant && !fate.NotExecuted? && token !in s.log.taken {
      MinterIsOk(crypto, s.log, r, s.requests[r].ask, pc, token);
      hide RequestOk, PcOk;
      MintedKeepsInv(crypto, s, r, token, s'.requests[r].pc);
    } else {
      SetPcKeepsInv(crypto, s, r, s'.requests[r].pc);
    }
  }

  lemma BearersHold(h: History, token: Token)
    requires HistoryInv(h) && token !in h.taken
    ensures token !in h.born
  {
    hide BirthsInv, IssueOk;
  }

  lemma MintedKeys(h: History, r: nat, pc: Pc, token: Token)
    requires pc.AccessSaved?
    ensures var h' := Minted(h, r, pc, token);
      h'.responses == h.responses && h'.minted == h.minted[r := token] && MintedFor(h', Some(token), pc.grant.source)
  {
  }

  lemma RespondKeepsInv(crypto: Crypto, s: State, r: nat, idToken: bool)
    requires Inv(crypto, s) && At(s, r).Ready?
    ensures Inv(crypto, RespondStep(s, r, At(s, r), idToken))
  {
    hide HistoryInv, CodesInv, RefreshInv, RequestsInv, HandOk;
    var pc := At(s, r);
    OkOf(crypto, s, r);
    if OPENID in Words(pc.grant.scope) && !idToken {
      SetPcKeepsInv(crypto, s, r, Failed);
    } else {
      var h' := Answer(s.log, r, Response(pc.client, pc.grant, pc.access, pc.refresh));
      AnswerGrows(s.log, r, Response(pc.client, pc.grant, pc.access, pc.refresh));
      AnswerKeepsRest(s, r, Response(pc.client, pc.grant, pc.access, pc.refresh));
      GrowthKeepsPc(crypto, s.log, h', r, s.requests[r].ask, pc);
      RequestsKept(crypto, s.log, h', s.requests, r, s.requests[r].(pc := Responded(pc.client, pc.grant)));
    }
  }

  lemma AnswerGrows(h: History, r: nat, response: Response)
    ensures Grows(h, Answer(h, r, response))
  {
  }

  lemma AnswerKeepsRest(s: State, r: nat, response: Response)
    requires HistoryInv(s.log) && CodesInv(s.log, s.codes) && RefreshInv(s.log, s.refresh)
    ensures var h' := Answer(s.log, r, response);
      HistoryInv(h') && CodesInv(h', s.codes) && RefreshInv(h', s.refresh)
  {
    hide IssueOk, BirthOk;
    AnswerGrows(s.log, r, response);
    BirthsKept(s.log, Answer(s.log, r, response));
  }
}
