/** The OAuth grant store and every step that changes it: server/okk_mcp/oauth.py,
    server/okk_mcp/maintenance.py, with the rows of server/okk_mcp/models.py.

    One step is one transaction, but the two grants of the token endpoint are split where their checks
    end and their writes begin, because each holds a row lock in between. The refresh grant awaits OKK
    there: `inflight` is the set of refresh rows it holds. The code exchange only has its writes to
    commit: `redeeming` is the set of code rows it holds. A bulk UPDATE takes a set `unseen` of rows
    which its snapshot may miss: rows another transaction committed while the statement waited for a
    lock. */
module Grants {
  import opened Common
  import opened Scopes

  type Time = int
  /** A value drawn at random: a raw token, a raw code or a UUID. Draws never repeat. */
  type Id = nat
  type ClientId = string

  /** `token_hash`, taken to be injective. */
  datatype Digest = Digest(secret: Id)

  /** The S256 code challenge of a verifier, taken to be injective. */
  datatype Challenge = S256(verifier: string)

  datatype Settings = Settings(
    accessMinutes: int,
    refreshDays: int,
    codeMinutes: int,
    retrySeconds: int,
    retentionDays: int,
    resourceUrl: string)
  {
    /** The ranges the settings accept (server/okk_mcp/config.py). */
    predicate Valid() {
      && 5 <= accessMinutes <= 1440
      && 1 <= refreshDays <= 365
      && 1 <= codeMinutes <= 15
      && 0 <= retrySeconds <= 120
      && 7 <= retentionDays <= 365
      && StripSlashes(resourceUrl) == resourceUrl
    }

    function AccessSeconds(): Time { accessMinutes * 60 }
    function RefreshSeconds(): Time { refreshDays * 86400 }
    function CodeSeconds(): Time { codeMinutes * 60 }
    function RetentionSeconds(): Time { retentionDays * 86400 }
  }

  const ABANDONED_CLIENT_AGE: Time := 86400

  datatype Client = Client(createdAt: Time, firstAuthorizedAt: Option<Time>)

  datatype Session = Session(revokedAt: Option<Time>)

  datatype Code = Code(
    client: ClientId,
    session: Id,
    redirectUri: string,
    scope: set<Word>,
    challenge: Challenge,
    resource: string,
    expiresAt: Time,
    consumedAt: Option<Time>)

  datatype Kind = Access | Refresh

  /** The raw pair inside `successor_sealed`; sealing is taken to be invertible. */
  datatype Pair = Pair(access: Id, refresh: Id)

  datatype Token = Token(
    kind: Kind,
    client: ClientId,
    session: Id,
    scope: set<Word>,
    resource: string,
    family: Id,
    expiresAt: Time,
    consumedAt: Option<Time>,
    revokedAt: Option<Time>,
    replacedBy: Option<Digest>,
    sealed: Option<Pair>)

  /** A refresh that holds its row lock; `live` once `live_context` has answered. */
  datatype Pending = Pending(scope: set<Word>, live: bool)

  /** What a sign-in granted. */
  datatype Grant = Grant(client: ClientId, requested: set<Word>, scope: set<Word>, resource: string, code: Digest)

  /** A token family: its session and every refresh token it was ever given, in order of issue. */
  datatype Line = Line(session: Id, chain: seq<Digest>)

  /** History variables: they decide no answer and no row, except that a draw must not be in `drawn`.
      `origin` follows every token back to the code whose exchange began its refreshes. */
  datatype History = History(drawn: set<Id>, grants: map<Id, Grant>, lines: map<Id, Line>, origin: map<Digest, Digest>)

  datatype Store = Store(
    clients: map<ClientId, Client>,
    sessions: map<Id, Session>,
    codes: map<Digest, Code>,
    tokens: map<Digest, Token>,
    inflight: map<Digest, Pending>,
    redeeming: set<Digest>,
    now: Time,
    past: History)

  const EMPTY: Store := Store(map[], map[], map[], map[], map[], {}, 0, History({}, map[], map[], map[]))

  /** The readings one step takes of the clock, in the order the code takes them. */
  datatype Clock = Clock(check: Time, mark: Time, note: Time, issue: Time) {
    predicate After(now: Time) {
      now <= check <= mark <= note <= issue
    }
  }

  datatype Draw = Draw(access: Id, refresh: Id, family: Id)

  datatype Reply =
    | Done
    | CodeIssued(code: Id)
    | TokenPair(access: Id, refresh: Id, scope: set<Word>)
    | Waiting
    | InvalidRequest
    | InvalidClient
    | InvalidGrant
    | CodeReplayed
    | RefreshReused
    | InvalidTarget
    | InvalidScope
    | TemporarilyUnavailable

  datatype Outcome = Outcome(store: Store, reply: Reply)

  /** `str.rstrip("/")`. */
  function StripSlashes(s: string): (r: string)
    ensures r <= s && forall i :: |r| <= i < |s| ==> s[i] == '/'
    ensures r == [] || r[|r| - 1] != '/'
  {
    if s != [] && s[|s| - 1] == '/' then StripSlashes(s[..|s| - 1]) else s
  }

  /** `verify_pkce`: the verifier is well formed and the stored challenge is its digest. */
  predicate VerifyPkce(verifier: string, challenge: Challenge) {
    && 43 <= |verifier| <= 128
    && (forall i :: 0 <= i < |verifier| ==>
          'a' <= verifier[i] <= 'z' || 'A' <= verifier[i] <= 'Z' || '0' <= verifier[i] <= '9' || verifier[i] in "-._~")
    && challenge == S256(verifier)
  }

  // ---------------------------------------------------------------- row updates

  /** A bulk `UPDATE ... SET revoked_at` of the rows `hit`. */
  function RevokeRows(tokens: map<Digest, Token>, hit: set<Digest>, at: Time): map<Digest, Token> {
    map h | h in tokens :: if h in hit then tokens[h].(revokedAt := Some(at)) else tokens[h]
  }

  function FamilyRows(tokens: map<Digest, Token>, family: Id): set<Digest> {
    set h | h in tokens && tokens[h].family == family && tokens[h].revokedAt.None?
  }

  function SessionRows(tokens: map<Digest, Token>, session: Id): set<Digest> {
    set h | h in tokens && tokens[h].session == session && tokens[h].revokedAt.None?
  }

  /** The local half of `revoke_upstream`: mark a still active session row revoked. */
  function RevokeSession(sessions: map<Id, Session>, session: Id, at: Time): map<Id, Session> {
    if session in sessions && sessions[session].revokedAt.None?
    then sessions[session := Session(Some(at))]
    else sessions
  }

  /** Revoke the rows `hit` and then the session: what a replay, a reuse and a /revoke have in common. */
  function EndGrant(s: Store, hit: set<Digest>, session: Id, c: Clock): Store {
    s.(tokens := RevokeRows(s.tokens, hit, c.note),
       sessions := RevokeSession(s.sessions, session, c.issue),
       now := c.issue)
  }

  function NewToken(cfg: Settings, kind: Kind, client: ClientId, session: Id, scope: set<Word>,
                    resource: string, family: Id, at: Time): Token
  {
    Token(kind, client, session, scope, resource, family,
          at + (if kind.Access? then cfg.AccessSeconds() else cfg.RefreshSeconds()),
          None, None, None, None)
  }

  /** `_add_token_pair`. */
  function AddTokenPair(cfg: Settings, tokens: map<Digest, Token>, client: ClientId, session: Id, scope: set<Word>,
                        resource: string, family: Id, draw: Draw, at: Time): map<Digest, Token>
  {
    tokens[Digest(draw.access) := NewToken(cfg, Access, client, session, scope, resource, family, at)]
          [Digest(draw.refresh) := NewToken(cfg, Refresh, client, session, scope, resource, family, at)]
  }

  // ---------------------------------------------------------------- sign-in and code exchange

  function Register(s: Store, client: ClientId, c: Clock): Outcome {
    Outcome(s.(clients := s.clients[client := Client(c.issue, None)], now := c.issue), Done)
  }

  /** The session and the code of a completed sign-in; a client named by its metadata document gets
      its row here. `requested` is the signed, already validated scope. */
  function Login(cfg: Settings, s: Store, client: ClientId, metadataDocument: bool, requested: set<Word>,
                 form: Consent, redirectUri: string, challenge: Challenge, session: Id, code: Id, c: Clock): Outcome
  {
    if client !in s.clients && !metadataDocument then Outcome(s.(now := c.issue), InvalidClient)
    else
      var clients := if client in s.clients then s.clients else s.clients[client := Client(c.note, None)];
      var scope := GrantedScope(requested, form);
      var row := Code(client, session, redirectUri, scope, challenge, cfg.resourceUrl, c.issue + cfg.CodeSeconds(),
                      None);
      Outcome(
        s.(clients := clients,
           sessions := s.sessions[session := Session(None)],
           codes := s.codes[Digest(code) := row],
           now := c.issue,
           past := s.past.(drawn := s.past.drawn + {session, code},
                           grants := s.past.grants[session :=
                             Grant(client, requested, scope, cfg.resourceUrl, Digest(code))])),
        CodeIssued(code))
  }

  datatype CodeGrant = CodeGrant(client: ClientId, code: Option<Id>, redirectUri: string, verifier: string,
                                 resource: string)

  predicate CodeAccepted(row: Code, r: CodeGrant, at: Time) {
    && at < row.expiresAt
    && row.client == r.client
    && row.redirectUri == r.redirectUri
    && VerifyPkce(r.verifier, row.challenge)
    && (r.resource == "" || StripSlashes(r.resource) == row.resource)
  }

  predicate FormComplete(s: Store, r: CodeGrant) {
    r.client in s.clients && r.code.Some? && r.redirectUri != "" && r.verifier != ""
  }

  /** The code is stored and already used: RFC 6749 section 4.1.2. */
  predicate IsReplay(s: Store, r: CodeGrant) {
    && FormComplete(s, r)
    && Digest(r.code.value) in s.codes
    && s.codes[Digest(r.code.value)].consumedAt.Some?
  }

  function ConsumeCode(cfg: Settings, s: Store, k: Digest, draw: Draw, c: Clock): Store
    requires k in s.codes && s.codes[k].client in s.clients
  {
    var row := s.codes[k];
    var owner := s.clients[row.client];
    s.(codes := s.codes[k := row.(consumedAt := Some(c.mark))],
       clients := if owner.firstAuthorizedAt.None?
                  then s.clients[row.client := owner.(firstAuthorizedAt := Some(c.mark))] else s.clients,
       tokens := AddTokenPair(cfg, s.tokens, row.client, row.session, row.scope, row.resource, draw.family, draw,
                              c.issue),
       redeeming := s.redeeming - {k},
       now := c.issue,
       past := s.past.(drawn := s.past.drawn + {draw.access, draw.refresh, draw.family},
                       lines := s.past.lines[draw.family := Line(row.session, [Digest(draw.refresh)])],
                       origin := s.past.origin[Digest(draw.access) := k][Digest(draw.refresh) := k]))
  }

  /** `POST /token`, grant_type authorization_code, up to its checks; an accepted code stays locked. */
  function Exchange(s: Store, r: CodeGrant, unseen: set<Digest>, c: Clock): Outcome {
    if r.client !in s.clients then Outcome(s.(now := c.issue), InvalidClient)
    else if !FormComplete(s, r) then Outcome(s.(now := c.issue), InvalidRequest)
    else
      var k := Digest(r.code.value);
      if k !in s.codes then Outcome(s.(now := c.issue), InvalidGrant)
      else if s.codes[k].consumedAt.Some? then
        var session := s.codes[k].session;
        Outcome(EndGrant(s, SessionRows(s.tokens, session) - unseen, session, c), CodeReplayed)
      else if !CodeAccepted(s.codes[k], r, c.check) then Outcome(s.(now := c.issue), InvalidGrant)
      else Outcome(s.(redeeming := s.redeeming + {k}, now := c.issue), Waiting)
  }

  /** The rest of the exchange: the code is consumed and the first pair issued. */
  function Redeem(cfg: Settings, s: Store, k: Digest, draw: Draw, c: Clock): Outcome
    requires k in s.codes && s.codes[k].client in s.clients
  {
    Outcome(ConsumeCode(cfg, s, k, draw, c), TokenPair(draw.access, draw.refresh, s.codes[k].scope))
  }

  // ---------------------------------------------------------------- refresh

  datatype RefreshGrant = RefreshGrant(client: ClientId, token: Option<Id>, scope: ScopeText, resource: string)

  predicate IsRefreshRow(s: Store, h: Digest) {
    h in s.tokens && s.tokens[h].kind.Refresh?
  }

  /** The presented row is this client's and has not expired. */
  predicate Presentable(s: Store, r: RefreshGrant, at: Time) {
    && r.client in s.clients
    && r.token.Some?
    && IsRefreshRow(s, Digest(r.token.value))
    && s.tokens[Digest(r.token.value)].client == r.client
    && at < s.tokens[Digest(r.token.value)].expiresAt
  }

  /** `_retried_rotation`: the pair already issued for a used token, while it may be given again. */
  function RetriedRotation(cfg: Settings, s: Store, row: Token, at: Time): Option<(Pair, set<Word>)> {
    if row.sealed.None? || row.replacedBy.None? || row.consumedAt.None? then None
    else if at - row.consumedAt.value > cfg.retrySeconds then None
    else if !IsRefreshRow(s, row.replacedBy.value) then None
    else
      var successor := s.tokens[row.replacedBy.value];
      if successor.consumedAt.Some? || successor.revokedAt.Some? then None
      else Some((row.sealed.value, successor.scope))
  }

  /** The retry has to read the successor's row and another refresh holds its lock. */
  predicate AwaitsSuccessor(cfg: Settings, s: Store, row: Token, at: Time) {
    && row.sealed.Some? && row.replacedBy.Some? && row.consumedAt.Some?
    && at - row.consumedAt.value <= cfg.retrySeconds
    && row.replacedBy.value in s.inflight
  }

  /** `POST /token`, grant_type refresh_token, up to the call of `live_context`. */
  function RefreshBegin(cfg: Settings, s: Store, r: RefreshGrant, unseen: set<Digest>, c: Clock): Outcome {
    if r.client !in s.clients then Outcome(s.(now := c.issue), InvalidClient)
    else if r.token.None? then Outcome(s.(now := c.issue), InvalidRequest)
    else if !Presentable(s, r, c.check) then Outcome(s.(now := c.issue), InvalidGrant)
    else
      var h := Digest(r.token.value);
      var row := s.tokens[h];
      if row.consumedAt.Some? then
        var retried := RetriedRotation(cfg, s, row, c.mark);
        if retried.Some? then
          Outcome(s.(now := c.issue), TokenPair(retried.value.0.access, retried.value.0.refresh, retried.value.1))
        else
          Outcome(EndGrant(s, FamilyRows(s.tokens, row.family) - unseen, row.session, c), RefreshReused)
      else if row.revokedAt.Some? then Outcome(s.(now := c.issue), InvalidGrant)
      else if StripSlashes(if r.resource == "" then row.resource else r.resource) != row.resource then
        Outcome(s.(now := c.issue), InvalidTarget)
      else
        var asks := RefreshScope(r.scope, row.scope);
        if asks.None? || !(asks.value <= row.scope) then Outcome(s.(now := c.issue), InvalidScope)
        else Outcome(s.(inflight := s.inflight[h := Pending(asks.value, false)], now := c.issue), Waiting)
  }

  /** The session row is there and not revoked: `live_context` goes on only then. */
  predicate SessionActive(s: Store, session: Id) {
    session in s.sessions && s.sessions[session].revokedAt.None?
  }

  /** `live_context` answered for a waiting refresh. */
  function RefreshLive(s: Store, h: Digest, c: Clock): Outcome
    requires h in s.inflight
  {
    Outcome(s.(inflight := s.inflight[h := s.inflight[h].(live := true)], now := c.issue), Waiting)
  }

  /** `live_context` raised, because OKK refused the session or because it was `down`: the transaction
      ends and the row lock is released. */
  function RefreshAbort(s: Store, h: Digest, down: bool, c: Clock): Outcome {
    Outcome(s.(inflight := s.inflight - {h}, now := c.issue), if down then TemporarilyUnavailable else InvalidGrant)
  }

  /** The presented row once it is replaced. */
  function Consumed(row: Token, draw: Draw, c: Clock): Token {
    row.(consumedAt := Some(c.mark), revokedAt := Some(c.note), replacedBy := Some(Digest(draw.refresh)),
         sealed := Some(Pair(draw.access, draw.refresh)))
  }

  /** The rest of the refresh grant: consume the presented token and issue its successor. */
  function RefreshMint(cfg: Settings, s: Store, h: Digest, draw: Draw, c: Clock): Outcome
    requires h in s.inflight && h in s.tokens && s.tokens[h].family in s.past.lines && h in s.past.origin
  {
    var row := s.tokens[h];
    var scope := s.inflight[h].scope;
    var line := s.past.lines[row.family];
    Outcome(
      s.(tokens := AddTokenPair(cfg, s.tokens[h := Consumed(row, draw, c)],
                                row.client, row.session, scope, row.resource, row.family, draw, c.issue),
         inflight := s.inflight - {h},
         now := c.issue,
         past := s.past.(drawn := s.past.drawn + {draw.access, draw.refresh},
                         lines := s.past.lines[row.family := line.(chain := line.chain + [Digest(draw.refresh)])],
                         origin := s.past.origin[Digest(draw.access) := s.past.origin[h]]
                                                [Digest(draw.refresh) := s.past.origin[h]])),
      TokenPair(draw.access, draw.refresh, scope))
  }

  // ---------------------------------------------------------------- revocation

  predicate IsOwnToken(s: Store, client: ClientId, token: Id) {
    Digest(token) in s.tokens && s.tokens[Digest(token)].client == client
  }

  /** `POST /revoke`: always answers 200. */
  function RevokeToken(s: Store, client: ClientId, token: Id, unseen: set<Digest>, c: Clock): Outcome {
    if !IsOwnToken(s, client, token) then Outcome(s.(now := c.issue), Done)
    else
      var h := Digest(token);
      var row := s.tokens[h];
      if row.kind.Refresh? then
        Outcome(EndGrant(s, FamilyRows(s.tokens, row.family) - unseen, row.session, c), Done)
      else
        Outcome(s.(tokens := s.tokens[h := row.(revokedAt := Some(c.note))], now := c.issue), Done)
  }

  /** The session row alone is revoked: the loop of the cleanup, or `live_context` and the rotation
      when OKK refuses the session or names another person. */
  function LoseSession(s: Store, session: Id, c: Clock): Outcome {
    Outcome(s.(sessions := RevokeSession(s.sessions, session, c.mark), now := c.issue), Done)
  }

  // ---------------------------------------------------------------- maintenance

  predicate LiveToken(t: Token, session: Id, at: Time) {
    t.session == session && at < t.expiresAt && t.revokedAt.None?
  }

  predicate LiveCode(k: Code, session: Id, at: Time) {
    k.session == session && at < k.expiresAt && k.consumedAt.None?
  }

  predicate HasLiveRow(tokens: map<Digest, Token>, codes: map<Digest, Code>, session: Id, at: Time) {
    || (exists h :: h in tokens && LiveToken(tokens[h], session, at))
    || (exists k :: k in codes && LiveCode(codes[k], session, at))
  }

  predicate HasLiveCredential(s: Store, session: Id, at: Time) {
    HasLiveRow(s.tokens, s.codes, session, at)
  }

  /** The sessions `cleanup_once` selects as orphans. */
  function OrphanRows(sessions: map<Id, Session>, tokens: map<Digest, Token>, codes: map<Digest, Code>,
                      at: Time): set<Id> {
    set i | i in sessions && sessions[i].revokedAt.None? && !HasLiveRow(tokens, codes, i, at)
  }

  function Orphans(s: Store, at: Time): set<Id> {
    OrphanRows(s.sessions, s.tokens, s.codes, at)
  }

  predicate TokenPurged(t: Token, cutoff: Time) {
    t.expiresAt < cutoff || (t.revokedAt.Some? && t.revokedAt.value < cutoff)
  }

  function KeptTokens(tokens: map<Digest, Token>, cutoff: Time): map<Digest, Token> {
    map h | h in tokens && !TokenPurged(tokens[h], cutoff) :: tokens[h]
  }

  function KeptCodes(codes: map<Digest, Code>, cutoff: Time): map<Digest, Code> {
    map k | k in codes && codes[k].expiresAt >= cutoff :: codes[k]
  }

  predicate SessionReferred(tokens: map<Digest, Token>, codes: map<Digest, Code>, session: Id) {
    (exists h :: h in tokens && tokens[h].session == session) || (exists k :: k in codes && codes[k].session == session)
  }

  predicate ClientReferred(tokens: map<Digest, Token>, codes: map<Digest, Code>, client: ClientId) {
    (exists h :: h in tokens && tokens[h].client == client) || (exists k :: k in codes && codes[k].client == client)
  }

  function KeptSessions(sessions: map<Id, Session>, tokens: map<Digest, Token>, codes: map<Digest, Code>,
                        cutoff: Time): map<Id, Session> {
    map i | i in sessions &&
            !(sessions[i].revokedAt.Some? && sessions[i].revokedAt.value < cutoff && !SessionReferred(tokens, codes, i))
            :: sessions[i]
  }

  function KeptClients(clients: map<ClientId, Client>, tokens: map<Digest, Token>, codes: map<Digest, Code>,
                       at: Time): map<ClientId, Client> {
    map i | i in clients &&
            !(clients[i].firstAuthorizedAt.None? && clients[i].createdAt < at - ABANDONED_CLIENT_AGE
              && !ClientReferred(tokens, codes, i)) :: clients[i]
  }

  function ClearPair(t: Token, before: Time): Token {
    if t.sealed.Some? && t.consumedAt.Some? && t.consumedAt.value < before then t.(sealed := None) else t
  }

  function ClearPairs(tokens: map<Digest, Token>, before: Time): map<Digest, Token> {
    map h | h in tokens :: ClearPair(tokens[h], before)
  }

  function DropCodes(s: Store, cutoff: Time): Store {
    s.(codes := KeptCodes(s.codes, cutoff))
  }

  function DropTokens(s: Store, cutoff: Time): Store {
    s.(tokens := KeptTokens(s.tokens, cutoff))
  }

  function DropSessions(s: Store, cutoff: Time): Store {
    s.(sessions := KeptSessions(s.sessions, s.tokens, s.codes, cutoff))
  }

  function ForgetPairs(s: Store, before: Time): Store {
    s.(tokens := ClearPairs(s.tokens, before))
  }

  function DropClients(s: Store, at: Time): Store {
    s.(clients := KeptClients(s.clients, s.tokens, s.codes, at))
  }

  /** The second transaction of `cleanup_once`, statement by statement; `at` is the one clock reading of
      the whole pass. With `forget` false it is the imaginary cleanup that keeps token rows and sealed
      pairs for ever. */
  function Purge(cfg: Settings, s: Store, at: Time, forget: bool, c: Clock): Outcome {
    var cutoff := at - cfg.RetentionSeconds();
    var codesDropped := DropCodes(s, cutoff);
    var tokensDropped := if forget then DropTokens(codesDropped, cutoff) else codesDropped;
    var sessionsDropped := DropSessions(tokensDropped, cutoff);
    var pairsForgotten := if forget then ForgetPairs(sessionsDropped, at - cfg.retrySeconds) else sessionsDropped;
    Outcome(DropClients(pairsForgotten, at).(now := c.issue), Done)
  }

  // ---------------------------------------------------------------- verification of an access token

  /** What OKK answers to `/auth/me` while the session row is active. */
  datatype Okk = Alive | Refuses | Unreachable

  predicate AccessRowValid(cfg: Settings, s: Store, h: Digest, at: Time) {
    && h in s.tokens
    && s.tokens[h].kind.Access?
    && s.tokens[h].revokedAt.None?
    && at < s.tokens[h].expiresAt
    && StripSlashes(s.tokens[h].resource) == cfg.resourceUrl
  }

  /** `verify_token`: the token row is read in `s` and the session row, later, in `later`. */
  function VerifyToken(cfg: Settings, s: Store, later: Store, token: Id, at: Time, okk: Okk): Option<set<Word>> {
    var h := Digest(token);
    if !AccessRowValid(cfg, s, h, at) then None
    else if !SessionActive(later, s.tokens[h].session) then None
    else if okk.Refuses? then None
    else Some(s.tokens[h].scope)
  }

  // ---------------------------------------------------------------- runs

  datatype Event =
    | Registered(client: ClientId, c: Clock)
    | SignedIn(client: ClientId, metadataDocument: bool, requested: set<Word>, form: Consent, redirectUri: string,
               challenge: Challenge, session: Id, code: Id, c: Clock)
    | Exchanged(codeGrant: CodeGrant, unseen: set<Digest>, c: Clock)
    | Redeemed(k: Digest, draw: Draw, c: Clock)
    | RefreshAsked(refresh: RefreshGrant, unseen: set<Digest>, c: Clock)
    | ContextLive(h: Digest, c: Clock)
    | ContextFailed(h: Digest, down: bool, c: Clock)
    | Refreshed(h: Digest, draw: Draw, c: Clock)
    | Revoked(client: ClientId, token: Id, unseen: set<Digest>, c: Clock)
    | SessionLost(session: Id, c: Clock)
    | Purged(at: Time, c: Clock)

  predicate Fresh(s: Store, ids: seq<Id>) {
    && (forall i :: 0 <= i < |ids| ==> ids[i] !in s.past.drawn)
    && (forall i, j :: 0 <= i < j < |ids| ==> ids[i] != ids[j])
  }

  function NewDrawIds(d: Draw): seq<Id> { [d.access, d.refresh, d.family] }

  /** The presented token is used up and the answer is not a retried pair. */
  predicate IsReuse(cfg: Settings, s: Store, r: RefreshGrant, c: Clock) {
    && Presentable(s, r, c.check)
    && s.tokens[Digest(r.token.value)].consumedAt.Some?
    && RetriedRotation(cfg, s, s.tokens[Digest(r.token.value)], c.mark).None?
  }

  /** The rows a bulk UPDATE of this event revokes. */
  function Sweep(cfg: Settings, s: Store, e: Event): set<Digest> {
    match e
    case Exchanged(r, unseen, _) =>
      if IsReplay(s, r) then SessionRows(s.tokens, s.codes[Digest(r.code.value)].session) - unseen else {}
    case RefreshAsked(r, unseen, c) =>
      if IsReuse(cfg, s, r, c) then FamilyRows(s.tokens, s.tokens[Digest(r.token.value)].family) - unseen else {}
    case Revoked(client, token, unseen, _) =>
      if IsOwnToken(s, client, token) && s.tokens[Digest(token)].kind.Refresh?
      then FamilyRows(s.tokens, s.tokens[Digest(token)].family) - unseen else {}
    case _ => {}
  }

  /** No row a purge with this cutoff deletes is locked. */
  predicate Unlocked(s: Store, cutoff: Time) {
    && (forall h :: h in s.inflight && h in s.tokens ==> !TokenPurged(s.tokens[h], cutoff))
    && (forall k :: k in s.redeeming && k in s.codes ==> s.codes[k].expiresAt >= cutoff)
  }

  /** The event can happen in `s`: the clock goes on, draws are new and no row it writes or locks is
      locked by another transaction. */
  predicate Enabled(cfg: Settings, s: Store, e: Event) {
    && e.c.After(s.now)
    && Sweep(cfg, s, e) !! s.inflight.Keys
    && match e
       case Registered(client, _) => client !in s.clients
       case SignedIn(_, _, requested, _, _, _, session, code, _) =>
         Fresh(s, [session, code]) && {} < requested <= ALLOWED
       case Exchanged(r, _, _) => FormComplete(s, r) ==> Digest(r.code.value) !in s.redeeming
       case Redeemed(k, draw, _) =>
         k in s.redeeming && k in s.codes && s.codes[k].client in s.clients && Fresh(s, NewDrawIds(draw))
       case RefreshAsked(r, _, c) =>
         && (r.token.Some? ==> Digest(r.token.value) !in s.inflight)
         && (Presentable(s, r, c.check) ==> !AwaitsSuccessor(cfg, s, s.tokens[Digest(r.token.value)], c.mark))
       case ContextLive(h, _) => h in s.inflight && h in s.tokens && SessionActive(s, s.tokens[h].session)
       case ContextFailed(h, _, _) => h in s.inflight
       case Refreshed(h, draw, _) =>
         && h in s.inflight && s.inflight[h].live && h in s.tokens
         && s.tokens[h].family in s.past.lines && h in s.past.origin
         && Fresh(s, NewDrawIds(draw))
       case Revoked(_, _, _, _) => true
       case SessionLost(_, _) => true
       case Purged(at, _) =>
         at <= s.now && Unlocked(s, at - cfg.RetentionSeconds())
  }

  /** One event. `forget` chooses the real cleanup or the one that keeps every token row. */
  function Step(cfg: Settings, s: Store, e: Event, forget: bool): Outcome
    requires Enabled(cfg, s, e)
  {
    match e
    case Registered(client, c) => Register(s, client, c)
    case SignedIn(client, metadataDocument, requested, form, redirectUri, challenge, session, code, c) =>
      Login(cfg, s, client, metadataDocument, requested, form, redirectUri, challenge, session, code, c)
    case Exchanged(r, unseen, c) => Exchange(s, r, unseen, c)
    case Redeemed(k, draw, c) => Redeem(cfg, s, k, draw, c)
    case RefreshAsked(r, unseen, c) => RefreshBegin(cfg, s, r, unseen, c)
    case ContextLive(h, c) => RefreshLive(s, h, c)
    case ContextFailed(h, down, c) => RefreshAbort(s, h, down, c)
    case Refreshed(h, draw, c) => RefreshMint(cfg, s, h, draw, c)
    case Revoked(client, token, unseen, c) => RevokeToken(s, client, token, unseen, c)
    case SessionLost(session, c) => LoseSession(s, session, c)
    case Purged(at, c) => Purge(cfg, s, at, forget, c)
  }

  ghost predicate Runs(cfg: Settings, s: Store, events: seq<Event>)
    decreases |events|
  {
    events == [] || (Enabled(cfg, s, events[0]) && Runs(cfg, Step(cfg, s, events[0], true).store, events[1..]))
  }

  ghost function After(cfg: Settings, s: Store, events: seq<Event>): Store
    requires Runs(cfg, s, events)
    decreases |events|
  {
    if events == [] then s else After(cfg, Step(cfg, s, events[0], true).store, events[1..])
  }

  /** `t` can follow `s` after any number of events. */
  ghost predicate Leads(cfg: Settings, s: Store, t: Store) {
    exists events :: Runs(cfg, s, events) && After(cfg, s, events) == t
  }

  ghost predicate Reachable(cfg: Settings, s: Store) {
    Leads(cfg, EMPTY, s)
  }
}
