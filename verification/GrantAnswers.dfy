/** What the token, revocation and cleanup endpoints do, said from the caller's side: every condition is
    written out on the request and on the stored row. */
module GrantAnswers {
  import opened Common
  import opened Scopes
  import opened Grants
  import opened GrantInvariant
  import opened GrantHistory

  // ---------------------------------------------------------------- code exchange

  /** Section 4.1 of RFC 7636: 43 to 128 unreserved characters. */
  predicate WellFormedVerifier(v: string) {
    && 43 <= |v| <= 128
    && forall ch :: ch in v ==> 'a' <= ch <= 'z' || 'A' <= ch <= 'Z' || '0' <= ch <= '9' || ch in "-._~"
  }

  /** The request names the client, the redirect URI, the verifier and the resource the code was issued for. */
  predicate Shows(r: CodeGrant, row: Code) {
    && r.client == row.client && r.redirectUri == row.redirectUri
    && WellFormedVerifier(r.verifier) && row.challenge == S256(r.verifier)
    && (r.resource == "" || StripSlashes(r.resource) == row.resource)
  }

  predicate CompleteForm(s: Store, r: CodeGrant) {
    r.client in s.clients && r.code != None && r.redirectUri != "" && r.verifier != ""
  }

  /** Which answer a code exchange gets up to its checks: it goes on exactly when the code is stored, unused and
      unexpired and the request shows all that belongs to it. */
  lemma CodeExchangeAnswers(s: Store, r: CodeGrant, unseen: set<Digest>, c: Clock)
    ensures var reply := Exchange(s, r, unseen, c).reply;
      && (reply == InvalidClient <==> r.client !in s.clients)
      && (reply == InvalidRequest <==> r.client in s.clients && !CompleteForm(s, r))
      && (reply == CodeReplayed <==>
            && CompleteForm(s, r) && Digest(r.code.value) in s.codes
            && s.codes[Digest(r.code.value)].consumedAt != None)
      && (reply == Waiting <==>
            && CompleteForm(s, r) && Digest(r.code.value) in s.codes
            && s.codes[Digest(r.code.value)].consumedAt == None && c.check < s.codes[Digest(r.code.value)].expiresAt
            && Shows(r, s.codes[Digest(r.code.value)]))
      && reply in {InvalidClient, InvalidRequest, InvalidGrant, CodeReplayed, Waiting}
  {
    hide StripSlashes;
    if CompleteForm(s, r) && Digest(r.code.value) in s.codes {
      VerifierIff(r.verifier, s.codes[Digest(r.code.value)].challenge);
    }
  }

  lemma VerifierIff(v: string, challenge: Challenge)
    ensures VerifyPkce(v, challenge) <==> WellFormedVerifier(v) && challenge == S256(v)
  {
    if VerifyPkce(v, challenge) {
      forall ch | ch in v
        ensures 'a' <= ch <= 'z' || 'A' <= ch <= 'Z' || '0' <= ch <= '9' || ch in "-._~"
      {
        var i :| 0 <= i < |v| && v[i] == ch;
      }
    }
    if WellFormedVerifier(v) && challenge == S256(v) {
      forall i | 0 <= i < |v|
        ensures 'a' <= v[i] <= 'z' || 'A' <= v[i] <= 'Z' || '0' <= v[i] <= '9' || v[i] in "-._~"
      {
        assert v[i] in v;
      }
    }
  }

  /** The session row alone is marked, at `at` and only if it was active; with no session row nothing is. */
  predicate Stops(s: Store, t: Store, session: Id, at: Time) {
    && t.sessions.Keys == s.sessions.Keys
    && forall i :: i in s.sessions ==>
         t.sessions[i] ==
           if i == session && s.sessions[i].revokedAt == None then Session(Some(at)) else s.sessions[i]
  }

  /** Exactly the unrevoked rows of `hit` are revoked, at `at`. */
  predicate Revokes(s: Store, t: Store, hit: set<Digest>, at: Time) {
    && t.tokens.Keys == s.tokens.Keys
    && forall h :: h in s.tokens ==>
         t.tokens[h] ==
           if h in hit && s.tokens[h].revokedAt == None then s.tokens[h].(revokedAt := Some(at)) else s.tokens[h]
  }

  /** The token rows of a session, and those of a family. */
  function OfSession(s: Store, session: Id): set<Digest> { set h | h in s.tokens && s.tokens[h].session == session }

  function OfFamily(s: Store, family: Id): set<Digest> { set h | h in s.tokens && s.tokens[h].family == family }

  /** What a code exchange changes: a refused one nothing, an accepted one locks its code, a replay ends the
      session and revokes every token row of it the UPDATE reaches, and no other. */
  lemma CodeExchangeChanges(s: Store, r: CodeGrant, unseen: set<Digest>, c: Clock)
    ensures var out := Exchange(s, r, unseen, c);
      && (out.reply in {InvalidClient, InvalidRequest, InvalidGrant} ==> out.store == s.(now := c.issue))
      && (out.reply == Waiting ==>
            out.store == s.(redeeming := s.redeeming + {Digest(r.code.value)}, now := c.issue))
      && (out.reply == CodeReplayed ==>
            var session := s.codes[Digest(r.code.value)].session;
            && out.store == s.(tokens := out.store.tokens, sessions := out.store.sessions, now := c.issue)
            && Stops(s, out.store, session, c.issue)
            && Revokes(s, out.store, OfSession(s, session) - unseen, c.note))
  {
    hide StripSlashes, VerifyPkce;
  }

  /** The new pair stands in `tokens`: both rows of one grant, each with the life the settings give its kind. */
  predicate PairStored(cfg: Settings, tokens: map<Digest, Token>, draw: Draw, client: ClientId, session: Id,
                       scope: set<Word>, resource: string, family: Id, at: Time)
  {
    && Digest(draw.access) in tokens && Digest(draw.refresh) in tokens
    && tokens[Digest(draw.access)] ==
       Token(Access, client, session, scope, resource, family, at + cfg.accessMinutes * 60, None, None, None, None)
    && tokens[Digest(draw.refresh)] ==
       Token(Refresh, client, session, scope, resource, family, at + cfg.refreshDays * 86400, None, None, None, None)
  }

  /** The rest of an accepted exchange: the pair has the scope of the code, the code is used up, the client is
      authorized from now on, and no other row changes. */
  lemma RedeemGivesTheCodesScope(cfg: Settings, s: Store, k: Digest, draw: Draw, c: Clock)
    requires Inv(cfg, s) && Enabled(cfg, s, Redeemed(k, draw, c))
    ensures var out := Redeem(cfg, s, k, draw, c); var row := s.codes[k];
      && out.reply == TokenPair(draw.access, draw.refresh, row.scope)
      && PairStored(cfg, out.store.tokens, draw, row.client, row.session, row.scope, row.resource, draw.family, c.issue)
      && out.store.tokens.Keys == s.tokens.Keys + {Digest(draw.access), Digest(draw.refresh)}
      && (forall h :: h in s.tokens ==> out.store.tokens[h] == s.tokens[h])
      && out.store.codes == s.codes[k := row.(consumedAt := Some(c.mark))]
      && out.store.clients == (if s.clients[row.client].firstAuthorizedAt.Some? then s.clients
           else s.clients[row.client := s.clients[row.client].(firstAuthorizedAt := Some(c.mark))])
      && out.store.sessions == s.sessions
  {
    DrawIsNew(cfg, s, draw);
  }

  // ---------------------------------------------------------------- refresh

  /** The presented row is a refresh token of this client and has not expired. */
  predicate OwnUnexpired(s: Store, r: RefreshGrant, at: Time) {
    && r.client in s.clients && r.token != None && Digest(r.token.value) in s.tokens
    && s.tokens[Digest(r.token.value)].kind == Refresh
    && s.tokens[Digest(r.token.value)].client == r.client && at < s.tokens[Digest(r.token.value)].expiresAt
  }

  /** The words a refresh asks for: what it names, and all the token holds when it names none. */
  function WordsAsked(r: RefreshGrant, held: set<Word>): set<Word> {
    if r.scope == Absent then held else r.scope.words
  }

  predicate SameResource(r: RefreshGrant, row: Token) {
    r.resource == "" || StripSlashes(r.resource) == row.resource
  }

  /** Which answer an unused, unrevoked refresh token gets before OKK is asked, and all the other refusals:
      it is taken up exactly when the words asked for are a non-empty part of what it holds. */
  lemma RefreshAnswers(cfg: Settings, s: Store, r: RefreshGrant, unseen: set<Digest>, c: Clock)
    requires cfg.Valid() && Reachable(cfg, s)
    ensures var out := RefreshBegin(cfg, s, r, unseen, c); var reply := out.reply;
      && (reply == InvalidClient <==> r.client !in s.clients)
      && (reply == InvalidRequest <==> r.client in s.clients && r.token == None)
      && (r.client in s.clients && r.token != None && !OwnUnexpired(s, r, c.check) ==> reply == InvalidGrant)
      && (OwnUnexpired(s, r, c.check) ==>
            var row := s.tokens[Digest(r.token.value)];
            && (row.consumedAt != None ==> reply.TokenPair? || reply == RefreshReused)
            && (row.consumedAt == None && row.revokedAt != None ==> reply == InvalidGrant)
            && (row.consumedAt == None && row.revokedAt == None ==>
                  && (!SameResource(r, row) ==> reply == InvalidTarget)
                  && (SameResource(r, row) ==>
                        && (reply == Waiting <==> {} < WordsAsked(r, row.scope) <= row.scope)
                        && (reply != Waiting ==> reply == InvalidScope))))
      && (reply != Waiting && reply != RefreshReused ==> out.store == s.(now := c.issue))
  {
    hide StripSlashes, RefreshScope, RetriedRotation;
    ReachableKeeps(cfg, s);
    if OwnUnexpired(s, r, c.check) {
      var row := s.tokens[Digest(r.token.value)];
      assert TokenOk(s, Digest(r.token.value));
      assert GrantOk(s, row.session);
      RefreshScopeGrantable(r.scope, row.scope);
      OneResource(cfg, s);
      RefreshWords(r, row.scope);
    }
  }

  lemma RefreshWords(r: RefreshGrant, held: set<Word>)
    requires held <= ALLOWED
    ensures var asks := RefreshScope(r.scope, held);
      && (asks.Some? && asks.value <= held <==> {} < WordsAsked(r, held) <= held)
      && (asks.Some? && asks.value <= held ==> asks.value == WordsAsked(r, held))
  {
    RefreshScopeGrantable(r.scope, held);
  }

  predicate ForOneResource(cfg: Settings, s: Store) {
    forall i :: i in s.past.grants ==> s.past.grants[i].resource == cfg.resourceUrl
  }

  /** What the reuse of a refresh token changes: its session is stopped, the unrevoked rows of its family which the
      UPDATE reaches are revoked, and nothing else. */
  lemma ReuseChanges(cfg: Settings, s: Store, r: RefreshGrant, unseen: set<Digest>, c: Clock)
    requires RefreshBegin(cfg, s, r, unseen, c).reply == RefreshReused
    ensures r.token != None && Digest(r.token.value) in s.tokens
    ensures var t := RefreshBegin(cfg, s, r, unseen, c).store; var row := s.tokens[Digest(r.token.value)];
      && t == s.(tokens := t.tokens, sessions := t.sessions, now := c.issue)
      && Stops(s, t, row.session, c.issue) && Revokes(s, t, OfFamily(s, row.family) - unseen, c.note)
  {
    hide StripSlashes, RefreshScope, RetriedRotation;
  }

  /** A refresh that OKK ends: when OKK refuses the session the token is invalid, when OKK is down the client may try
      again; either way only the lock goes. */
  lemma OkkEndsTheRefresh(s: Store, h: Digest, down: bool, c: Clock)
    ensures var out := RefreshAbort(s, h, down, c);
      && (out.reply == TemporarilyUnavailable <==> down) && (out.reply == InvalidGrant <==> !down)
      && out.store == s.(inflight := out.store.inflight, now := c.issue)
      && out.store.inflight.Keys == s.inflight.Keys - {h}
      && (forall x :: x in out.store.inflight ==> out.store.inflight[x] == s.inflight[x])
  {}

  /** Every token and code ever stored is for the one resource of the settings. */
  lemma OneResource(cfg: Settings, s: Store)
    requires cfg.Valid() && Reachable(cfg, s)
    ensures forall h :: h in s.tokens ==> s.tokens[h].resource == cfg.resourceUrl
    ensures forall k :: k in s.codes ==> s.codes[k].resource == cfg.resourceUrl
  {
    var events :| Runs(cfg, EMPTY, events) && After(cfg, EMPTY, events) == s;
    ReachableKeeps(cfg, s);
    GrantsKeepResource(cfg, EMPTY, events);
    forall h | h in s.tokens ensures s.tokens[h].resource == cfg.resourceUrl {
      assert TokenOk(s, h);
      assert s.past.grants[s.tokens[h].session].resource == cfg.resourceUrl;
    }
    forall k | k in s.codes ensures s.codes[k].resource == cfg.resourceUrl {
      assert CodeOk(s, k);
      assert s.past.grants[s.codes[k].session].resource == cfg.resourceUrl;
    }
  }

  lemma {:induction false} GrantsKeepResource(cfg: Settings, s: Store, events: seq<Event>)
    requires Runs(cfg, s, events) && ForOneResource(cfg, s)
    ensures ForOneResource(cfg, After(cfg, s, events))
    decreases |events|
  {
    hide ForOneResource;
    if events != [] {
      StepKeepsResource(cfg, s, events[0]);
      GrantsKeepResource(cfg, Step(cfg, s, events[0], true).store, events[1..]);
    }
  }

  lemma StepKeepsResource(cfg: Settings, s: Store, e: Event)
    requires Enabled(cfg, s, e) && ForOneResource(cfg, s)
    ensures ForOneResource(cfg, Step(cfg, s, e, true).store)
  {
    hide Sweep, Unlocked, RetriedRotation, StripSlashes, RefreshScope, CodeAccepted;
  }

  /** The event ends the refresh that holds the row `h`. */
  predicate LetsGo(e: Event, h: Digest) {
    (e.ContextFailed? && e.h == h) || (e.Refreshed? && e.h == h)
  }

  /** A lock with its words stays until its own refresh ends, and its row keeps what it was issued with. */
  lemma {:induction false} LockStays(cfg: Settings, s: Store, events: seq<Event>, h: Digest)
    requires Runs(cfg, s, events) && h in s.inflight && forall i :: 0 <= i < |events| ==> !LetsGo(events[i], h)
    ensures var t := After(cfg, s, events); h in t.inflight && t.inflight[h].scope == s.inflight[h].scope
    decreases |events|
  {
    if events != [] {
      assert !LetsGo(events[0], h);
      LockStaysOnce(cfg, s, events[0], h);
      LockStays(cfg, Step(cfg, s, events[0], true).store, events[1..], h);
    }
  }

  lemma LockStaysOnce(cfg: Settings, s: Store, e: Event, h: Digest)
    requires Enabled(cfg, s, e) && h in s.inflight && !LetsGo(e, h)
    ensures var t := Step(cfg, s, e, true).store; h in t.inflight && t.inflight[h].scope == s.inflight[h].scope
  {
    hide Sweep, Unlocked, RetriedRotation, StripSlashes, RefreshScope, CodeAccepted;
  }

  /** The answer and both new rows have `words`, the old token is used up, revoked and linked to the new one,
      and no other row changes. */
  predicate Rotated(cfg: Settings, s: Store, out: Outcome, h: Digest, words: set<Word>, draw: Draw, c: Clock)
    requires h in s.tokens
  {
    var row, t := s.tokens[h], out.store;
    && out.reply == TokenPair(draw.access, draw.refresh, words)
    && PairStored(cfg, t.tokens, draw, row.client, row.session, words, row.resource, row.family, c.issue)
    && t.tokens.Keys == s.tokens.Keys + {Digest(draw.access), Digest(draw.refresh)}
    && t.tokens[h] == row.(consumedAt := Some(c.mark), revokedAt := Some(c.note),
                           replacedBy := Some(Digest(draw.refresh)), sealed := Some(Pair(draw.access, draw.refresh)))
    && (forall x :: x in s.tokens && x != h ==> t.tokens[x] == s.tokens[x])
    && t.sessions == s.sessions && t.codes == s.codes
  }

  /** A refresh gives exactly what it asked for: from the request to its writes, whatever comes between,
      the answer and both new rows have the words of the request. */
  lemma RefreshGivesWhatWasAsked(cfg: Settings, s: Store, r: RefreshGrant, unseen: set<Digest>, c: Clock,
                                 events: seq<Event>, draw: Draw, c2: Clock)
    requires cfg.Valid() && Reachable(cfg, s) && Enabled(cfg, s, RefreshAsked(r, unseen, c))
    requires Step(cfg, s, RefreshAsked(r, unseen, c), true).reply == Waiting
    requires Runs(cfg, Step(cfg, s, RefreshAsked(r, unseen, c), true).store, events)
    requires forall i :: 0 <= i < |events| ==> !LetsGo(events[i], Digest(r.token.value))
    requires var u := After(cfg, Step(cfg, s, RefreshAsked(r, unseen, c), true).store, events);
      Enabled(cfg, u, Refreshed(Digest(r.token.value), draw, c2))
    ensures var h := Digest(r.token.value);
      var u := After(cfg, Step(cfg, s, RefreshAsked(r, unseen, c), true).store, events);
      var row := s.tokens[h];
      && h in u.tokens && u.tokens[h] == row
      && Rotated(cfg, u, Step(cfg, u, Refreshed(h, draw, c2), true), h, WordsAsked(r, row.scope), draw, c2)
  {
    var h := Digest(r.token.value);
    var t := Step(cfg, s, RefreshAsked(r, unseen, c), true).store;
    var u := After(cfg, t, events);
    ReachableKeeps(cfg, s);
    StepKeeps(cfg, s, RefreshAsked(r, unseen, c), true);
    TakenUp(cfg, s, r, unseen, c);
    hide Inv, Later, Step, Enabled, Runs, After, Rotated, WordsAsked;
    LockStays(cfg, t, events, h);
    RunLater(cfg, t, events);
    LockedRow(cfg, t, u, h);
    MintedPair(cfg, u, h, draw, c2);
  }

  lemma TakenUp(cfg: Settings, s: Store, r: RefreshGrant, unseen: set<Digest>, c: Clock)
    requires Inv(cfg, s) && Enabled(cfg, s, RefreshAsked(r, unseen, c))
    requires Step(cfg, s, RefreshAsked(r, unseen, c), true).reply == Waiting
    ensures r.token.Some?
    ensures var h := Digest(r.token.value); var t := Step(cfg, s, RefreshAsked(r, unseen, c), true).store;
      && h in s.tokens && t.tokens == s.tokens
      && h in t.inflight && t.inflight[h].scope == WordsAsked(r, s.tokens[h].scope)
  {
    hide StripSlashes, RefreshScope, RetriedRotation;
    assert Presentable(s, r, c.check);
    var h := Digest(r.token.value);
    assert TokenOk(s, h) && GrantOk(s, s.tokens[h].session);
    RefreshWords(r, s.tokens[h].scope);
  }

  /** A locked row is unused and unrevoked, so a later store has it unchanged while it is locked. */
  lemma LockedRow(cfg: Settings, s: Store, t: Store, h: Digest)
    requires Inv(cfg, s) && Inv(cfg, t) && Later(cfg, s, t) && h in s.inflight && h in t.inflight
    ensures h in s.tokens && h in t.tokens && t.tokens[h] == s.tokens[h]
  {
    assert InflightOk(s, h) && InflightOk(t, h) && TokenOk(s, h);
    assert RowLater(cfg, s.tokens[h], t.tokens[h], t.now);
    var i := Place(cfg, s, h);
    var j := Place(cfg, t, h);
  }

  lemma MintedPair(cfg: Settings, u: Store, h: Digest, draw: Draw, c: Clock)
    requires Inv(cfg, u) && Enabled(cfg, u, Refreshed(h, draw, c))
    ensures Rotated(cfg, u, Step(cfg, u, Refreshed(h, draw, c), true), h, u.inflight[h].scope, draw, c)
  {
    DrawIsNew(cfg, u, draw);
  }

  // ---------------------------------------------------------------- revocation

  /** `/revoke` always answers alike. A token of another client, or an unknown one, changes no row; an access
      token is marked and nothing else changes; a refresh token ends its session and every unrevoked row of its
      family which the UPDATE reaches, and no other. */
  lemma RevokeChanges(s: Store, client: ClientId, token: Id, unseen: set<Digest>, c: Clock)
    ensures var out := RevokeToken(s, client, token, unseen, c); var h := Digest(token); var t := out.store;
      && out.reply == Done
      && (h !in s.tokens || s.tokens[h].client != client ==> t == s.(now := c.issue))
      && (h in s.tokens && s.tokens[h].client == client && s.tokens[h].kind == Access ==>
            t == s.(tokens := s.tokens[h := s.tokens[h].(revokedAt := Some(c.note))], now := c.issue))
      && (h in s.tokens && s.tokens[h].client == client && s.tokens[h].kind == Refresh ==>
            && t == s.(tokens := t.tokens, sessions := t.sessions, now := c.issue)
            && Stops(s, t, s.tokens[h].session, c.issue)
            && Revokes(s, t, OfFamily(s, s.tokens[h].family) - unseen, c.note))
  {}

  /** An access token its client has revoked is accepted by no verification in any later run. */
  lemma RevokedAccessTokenIsDead(cfg: Settings, s: Store, client: ClientId, token: Id, unseen: set<Digest>, c: Clock,
                                 events: seq<Event>, more: seq<Event>)
    requires cfg.Valid() && Reachable(cfg, s) && Enabled(cfg, s, Revoked(client, token, unseen, c))
    requires Digest(token) in s.tokens && s.tokens[Digest(token)].client == client
    requires s.tokens[Digest(token)].kind == Access
    requires Runs(cfg, RevokeToken(s, client, token, unseen, c).store, events)
    requires Runs(cfg, After(cfg, RevokeToken(s, client, token, unseen, c).store, events), more)
    ensures var read := After(cfg, RevokeToken(s, client, token, unseen, c).store, events);
      forall at, okk :: VerifyToken(cfg, read, After(cfg, read, more), token, at, okk) == None
  {
    var h := Digest(token);
    var t := RevokeToken(s, client, token, unseen, c).store;
    ReachableKeeps(cfg, s);
    StepKeeps(cfg, s, Revoked(client, token, unseen, c), true);
    RevokeChanges(s, client, token, unseen, c);
    RunLater(cfg, t, events);
    var read := After(cfg, t, events);
    assert TokenOk(t, h) && t.tokens[h].revokedAt.Some?;
    if h in read.tokens { assert RowLater(cfg, t.tokens[h], read.tokens[h], read.now); }
  }

  // ---------------------------------------------------------------- verification

  /** A token is accepted exactly when it is an access token of this gateway, neither revoked nor expired,
      its session is active when that is read, and OKK does not refuse; it then has the scope it was issued with. */
  lemma VerifiedIff(cfg: Settings, s: Store, later: Store, token: Id, at: Time, okk: Okk)
    requires cfg.Valid() && Reachable(cfg, s)
    ensures var h := Digest(token);
      && (VerifyToken(cfg, s, later, token, at, okk) != None <==>
            && h in s.tokens && s.tokens[h].kind == Access && s.tokens[h].revokedAt == None
            && at < s.tokens[h].expiresAt
            && s.tokens[h].session in later.sessions && later.sessions[s.tokens[h].session].revokedAt == None
            && okk != Refuses)
      && (VerifyToken(cfg, s, later, token, at, okk) != None ==>
            VerifyToken(cfg, s, later, token, at, okk) == Some(s.tokens[h].scope))
  {
    OneResource(cfg, s);
  }

  // ---------------------------------------------------------------- cleanup

  /** What one purge deletes, both ways: expired codes and expired or revoked tokens past the retention, used or not;
      revoked sessions past it to which no remaining row belongs; clients that never finished a sign-in,
      a day old and without a remaining row; and of remaining tokens only the sealed pair, past its window. */
  lemma PurgeDeletesExactly(cfg: Settings, s: Store, at: Time, c: Clock)
    ensures var t := Purge(cfg, s, at, true, c).store; var cutoff := at - cfg.retentionDays * 86400;
      && t == s.(codes := t.codes, tokens := t.tokens, sessions := t.sessions, clients := t.clients, now := c.issue)
      && t.codes.Keys <= s.codes.Keys && t.tokens.Keys <= s.tokens.Keys
      && (forall k :: k in s.codes ==> (k !in t.codes <==> s.codes[k].expiresAt < cutoff))
      && (forall k :: k in t.codes ==> t.codes[k] == s.codes[k])
      && (forall h :: h in s.tokens ==>
            (h !in t.tokens <==>
               s.tokens[h].expiresAt < cutoff || (s.tokens[h].revokedAt.Some? && s.tokens[h].revokedAt.value < cutoff)))
      && (forall h :: h in t.tokens ==>
            t.tokens[h] == if s.tokens[h].consumedAt.Some? && s.tokens[h].consumedAt.value < at - cfg.retrySeconds
                           then s.tokens[h].(sealed := None) else s.tokens[h])
  {
    hide KeptSessions, KeptClients;
    PurgeStatements(cfg, s, at, c);
  }

  lemma PurgeKeepsWhatIsReferred(cfg: Settings, s: Store, at: Time, c: Clock)
    ensures var t := Purge(cfg, s, at, true, c).store; var cutoff := at - cfg.retentionDays * 86400;
      && (forall i :: i in s.sessions ==>
            (i !in t.sessions <==>
               && s.sessions[i].revokedAt.Some? && s.sessions[i].revokedAt.value < cutoff
               && (forall h :: h in t.tokens ==> t.tokens[h].session != i)
               && (forall k :: k in t.codes ==> t.codes[k].session != i)))
      && (forall i :: i in t.sessions ==> i in s.sessions && t.sessions[i] == s.sessions[i])
      && (forall x :: x in s.clients ==>
            (x !in t.clients <==>
               && s.clients[x].firstAuthorizedAt == None && s.clients[x].createdAt < at - 86400
               && (forall h :: h in t.tokens ==> t.tokens[h].client != x)
               && (forall k :: k in t.codes ==> t.codes[k].client != x)))
      && (forall x :: x in t.clients ==> x in s.clients && t.clients[x] == s.clients[x])
  {
    hide Purge, KeptTokens, KeptCodes, KeptSessions, KeptClients, ClearPairs;
    var t, cutoff := Purge(cfg, s, at, true, c).store, at - cfg.RetentionSeconds();
    var kept := KeptTokens(s.tokens, cutoff);
    PurgeStatements(cfg, s, at, c);
    ClearedAreSame(kept, at - cfg.retrySeconds);
    SessionsKept(s.sessions, kept, t.tokens, t.codes, cutoff);
    ClientsKept(s.clients, t.tokens, t.codes, at);
  }

  /** The parts of the purged store. */
  lemma PurgeStatements(cfg: Settings, s: Store, at: Time, c: Clock)
    ensures var t := Purge(cfg, s, at, true, c).store; var cutoff := at - cfg.RetentionSeconds();
      var kept := KeptTokens(s.tokens, cutoff);
      && t.codes == KeptCodes(s.codes, cutoff)
      && t.tokens == ClearPairs(kept, at - cfg.retrySeconds)
      && t.sessions == KeptSessions(s.sessions, kept, t.codes, cutoff)
      && t.clients == KeptClients(s.clients, t.tokens, t.codes, at)
  {
    hide KeptTokens, KeptCodes, KeptSessions, KeptClients, ClearPairs;
  }

  lemma ClearedAreSame(tokens: map<Digest, Token>, before: Time)
    ensures ClearPairs(tokens, before).Keys == tokens.Keys
    ensures forall h :: h in tokens ==> ClearPairs(tokens, before)[h].session == tokens[h].session
  {}

  lemma SessionsKept(sessions: map<Id, Session>, tokens: map<Digest, Token>, shown: map<Digest, Token>,
                     codes: map<Digest, Code>, cutoff: Time)
    requires shown.Keys == tokens.Keys && forall h :: h in tokens ==> shown[h].session == tokens[h].session
    ensures var kept := KeptSessions(sessions, tokens, codes, cutoff);
      && (forall i :: i in sessions ==>
            (i !in kept <==>
               && sessions[i].revokedAt.Some? && sessions[i].revokedAt.value < cutoff
               && (forall h :: h in shown ==> shown[h].session != i)
               && (forall k :: k in codes ==> codes[k].session != i)))
      && (forall i :: i in kept ==> i in sessions && kept[i] == sessions[i])
  {
    forall i ensures SessionReferred(tokens, codes, i) <==> SessionReferred(shown, codes, i) {}
  }

  lemma ClientsKept(clients: map<ClientId, Client>, tokens: map<Digest, Token>, codes: map<Digest, Code>, at: Time)
    ensures var kept := KeptClients(clients, tokens, codes, at);
      && (forall x :: x in clients ==>
            (x !in kept <==>
               && clients[x].firstAuthorizedAt == None && clients[x].createdAt < at - 86400
               && (forall h :: h in tokens ==> tokens[h].client != x)
               && (forall k :: k in codes ==> codes[k].client != x)))
      && (forall x :: x in kept ==> x in clients && kept[x] == clients[x])
  {}

  /** An orphan: an active session with no unexpired, unrevoked token and no unexpired, unused code. */
  lemma OrphanIff(s: Store, at: Time, i: Id)
    ensures i in Orphans(s, at) <==>
      && i in s.sessions && s.sessions[i].revokedAt == None
      && (forall h :: h in s.tokens && s.tokens[h].session == i ==>
            s.tokens[h].expiresAt <= at || s.tokens[h].revokedAt != None)
      && (forall k :: k in s.codes && s.codes[k].session == i ==>
            s.codes[k].expiresAt <= at || s.codes[k].consumedAt != None)
  {}
}
