/** The server as code that updates its tables in place: the endpoints of server/okk_mcp/oauth.py and
    `cleanup_once` of server/okk_mcp/maintenance.py. Every method is tied to the step of module Grants
    it performs, so what is proved of runs of steps holds of runs of calls. */
module GrantServer {
  import opened Common
  import opened Scopes
  import opened Grants
  import opened GrantInvariant
  import opened GrantAnswers

  const ORPHANS_PER_PASS: nat := 500

  /** Revoking a list of sessions one after the other, each in its own transaction. */
  function LoseSessions(s: Store, ids: seq<Id>, clocks: seq<Clock>): (t: Store)
    requires |ids| <= |clocks|
    ensures t == s.(sessions := t.sessions, now := t.now)
    ensures t.now == if ids == [] then s.now else clocks[|ids| - 1].issue
    decreases ids
  {
    if ids == [] then s
    else LoseSession(LoseSessions(s, ids[..|ids| - 1], clocks), ids[|ids| - 1], clocks[|ids| - 1]).store
  }

  function Losses(ids: seq<Id>, clocks: seq<Clock>): seq<Event>
    requires |ids| <= |clocks|
  {
    if ids == [] then [] else Losses(ids[..|ids| - 1], clocks) + [SessionLost(ids[|ids| - 1], clocks[|ids| - 1])]
  }

  predicate TicksAt(now: Time, clocks: seq<Clock>, i: nat)
    requires i < |clocks|
  {
    clocks[i].After(if i == 0 then now else clocks[i - 1].issue)
  }

  /** Readings taken one after the other. */
  predicate Ticking(now: Time, clocks: seq<Clock>) {
    forall i {:trigger TicksAt(now, clocks, i)} :: 0 <= i < |clocks| ==> TicksAt(now, clocks, i)
  }

  lemma {:induction false} LossesAreARun(cfg: Settings, s: Store, ids: seq<Id>, clocks: seq<Clock>)
    requires |ids| <= |clocks| && Ticking(s.now, clocks)
    ensures Runs(cfg, s, Losses(ids, clocks)) && After(cfg, s, Losses(ids, clocks)) == LoseSessions(s, ids, clocks)
  {
    if ids != [] {
      var last := |ids| - 1;
      LossesAreARun(cfg, s, ids[..last], clocks);
      assert TicksAt(s.now, clocks, last);
      RunThenStep(cfg, s, Losses(ids[..last], clocks), SessionLost(ids[last], clocks[last]));
    }
  }

  /** What a cleanup pass does is a run of events, so everything proved of runs holds across it. */
  lemma CleanupIsARun(cfg: Settings, s: Store, ids: seq<Id>, clocks: seq<Clock>, at: Time, c: Clock)
    requires |ids| <= |clocks| && Ticking(s.now, clocks) && at <= s.now && c.After(LoseSessions(s, ids, clocks).now)
    requires Unlocked(s, at - cfg.RetentionSeconds())
    ensures var events := Losses(ids, clocks) + [Purged(at, c)];
      Runs(cfg, s, events) && After(cfg, s, events) == Purge(cfg, LoseSessions(s, ids, clocks), at, true, c).store
  {
    hide Purge;
    LossesAreARun(cfg, s, ids, clocks);
    LossesTakeTime(s, ids, clocks);
    RunThenStep(cfg, s, Losses(ids, clocks), Purged(at, c));
  }

  lemma {:induction false} LossesTakeTime(s: Store, ids: seq<Id>, clocks: seq<Clock>)
    requires |ids| <= |clocks| && Ticking(s.now, clocks)
    ensures s.now <= LoseSessions(s, ids, clocks).now
  {
    if ids != [] {
      LossesTakeTime(s, ids[..|ids| - 1], clocks);
      assert TicksAt(s.now, clocks, |ids| - 1);
    }
  }

  /** Exactly the listed sessions are stopped. */
  lemma {:induction false} LostAreStopped(s: Store, ids: seq<Id>, clocks: seq<Clock>, i: Id)
    requires |ids| <= |clocks|
    ensures SessionActive(LoseSessions(s, ids, clocks), i) <==> SessionActive(s, i) && i !in ids
    ensures LoseSessions(s, ids, clocks).sessions.Keys == s.sessions.Keys
  {
    if ids != [] {
      var last := |ids| - 1;
      LostAreStopped(s, ids[..last], clocks, i);
      assert ids == ids[..last] + [ids[last]];
    }
  }

  /** A cleanup pass stops exactly the sessions it lists. */
  lemma CleanupStops(cfg: Settings, s: Store, ids: seq<Id>, clocks: seq<Clock>, at: Time, c: Clock, i: Id)
    requires |ids| <= |clocks|
    ensures SessionActive(Purge(cfg, LoseSessions(s, ids, clocks), at, true, c).store, i) <==>
      SessionActive(s, i) && i !in ids
  {
    hide Purge, LoseSessions;
    LostAreStopped(s, ids, clocks, i);
    PurgeKeepsWhatIsReferred(cfg, LoseSessions(s, ids, clocks), at, c);
  }

  /** The order of the row writes does not matter: the successor is linked after the pair is added. */
  lemma LinkingLast(cfg: Settings, tokens: map<Digest, Token>, h: Digest, scope: set<Word>, draw: Draw, c: Clock)
    requires h in tokens && Digest(draw.access) !in tokens && Digest(draw.refresh) !in tokens
    ensures var row := tokens[h];
      var half := row.(consumedAt := Some(c.mark), revokedAt := Some(c.note));
      var added := AddTokenPair(cfg, tokens[h := half], row.client, row.session, scope, row.resource, row.family, draw,
                                c.issue);
      added[h := added[h].(replacedBy := Some(Digest(draw.refresh)), sealed := Some(Pair(draw.access, draw.refresh)))]
        == AddTokenPair(cfg, tokens[h := Consumed(row, draw, c)], row.client, row.session, scope, row.resource,
                        row.family, draw, c.issue)
  {}

  class Server {
    const cfg: Settings
    var clients: map<ClientId, Client>
    var sessions: map<Id, Session>
    var codes: map<Digest, Code>
    var tokens: map<Digest, Token>
    /** Row locks held by refreshes that wait for OKK, with what each will issue. */
    var inflight: map<Digest, Pending>
    /** Row locks held by code exchanges that passed their checks. */
    var redeeming: set<Digest>
    var now: Time
    ghost var past: History

    ghost function View(): Store
      reads this
    {
      Store(clients, sessions, codes, tokens, inflight, redeeming, now, past)
    }

    constructor (cfg: Settings)
      ensures this.cfg == cfg && View() == EMPTY
    {
      this.cfg := cfg;
      clients, sessions, codes, tokens, inflight, redeeming, now := map[], map[], map[], map[], map[], {}, 0;
      past := EMPTY.past;
    }

    method RegisterClient(client: ClientId, c: Clock)
      modifies this
      ensures View() == Register(old(View()), client, c).store
      ensures client in clients && clients[client] == Client(c.issue, None)
      ensures forall other :: other in old(clients) && other != client ==>
        other in clients && clients[other] == old(clients)[other]
    {
      clients := clients[client := Client(c.issue, None)];
      now := c.issue;
    }

    /** The local half of `revoke_upstream`. */
    method RevokeUpstream(session: Id, at: Time)
      modifies this`sessions
      ensures sessions == RevokeSession(old(sessions), session, at)
    {
      if session !in sessions || sessions[session].revokedAt.Some? {
        return;
      }
      sessions := sessions[session := Session(Some(at))];
    }

    /** `authorize_login`, from the accepted password on. */
    method AuthorizeLogin(client: ClientId, metadataDocument: bool, requested: set<Word>, form: Consent,
                          redirectUri: string,
                          challenge: Challenge, session: Id, code: Id, c: Clock) returns (reply: Reply)
      modifies this
      ensures Outcome(View(), reply) == Login(cfg, old(View()), client, metadataDocument, requested, form, redirectUri,
                                              challenge, session, code, c)
    {
      now := c.issue;
      if client !in clients && !metadataDocument {
        return InvalidClient;
      }
      var scope := GrantedScope(requested, form);
      sessions := sessions[session := Session(None)];
      if client !in clients {
        clients := clients[client := Client(c.note, None)];
      }
      codes := codes[Digest(code) := Code(client, session, redirectUri, scope, challenge, cfg.resourceUrl,
                                          c.issue + cfg.CodeSeconds(), None)];
      past := past.(drawn := past.drawn + {session, code},
                    grants := past.grants[session := Grant(client, requested, scope, cfg.resourceUrl, Digest(code))]);
      return CodeIssued(code);
    }

    /** `_add_token_pair`. */
    method AddPair(client: ClientId, session: Id, scope: set<Word>, resource: string, family: Id, draw: Draw, at: Time)
      modifies this`tokens
      ensures tokens == AddTokenPair(cfg, old(tokens), client, session, scope, resource, family, draw, at)
    {
      tokens := tokens[Digest(draw.access) := NewToken(cfg, Access, client, session, scope, resource, family, at)];
      tokens := tokens[Digest(draw.refresh) := NewToken(cfg, Refresh, client, session, scope, resource, family, at)];
    }

    /** `POST /token` with an authorization code, up to its checks; a used code takes its whole grant down. */
    method TokenByCode(r: CodeGrant, unseen: set<Digest>, c: Clock) returns (reply: Reply)
      modifies this
      ensures Outcome(View(), reply) == Exchange(old(View()), r, unseen, c)
    {
      now := c.issue;
      if r.client !in clients {
        return InvalidClient;
      }
      if r.code.None? || r.redirectUri == "" || r.verifier == "" {
        return InvalidRequest;
      }
      var k := Digest(r.code.value);
      if k in codes && codes[k].consumedAt.Some? {
        var session := codes[k].session;
        tokens := RevokeRows(tokens, SessionRows(tokens, session) - unseen, c.note);
        RevokeUpstream(session, c.issue);
        return CodeReplayed;
      }
      if k !in codes || !CodeAccepted(codes[k], r, c.check) {
        return InvalidGrant;
      }
      redeeming := redeeming + {k};
      return Waiting;
    }

    /** The rest of `POST /token` with an accepted code. */
    method FinishExchange(k: Digest, draw: Draw, c: Clock) returns (reply: Reply)
      requires k in redeeming && k in codes && codes[k].client in clients
      modifies this
      ensures Outcome(View(), reply) == Redeem(cfg, old(View()), k, draw, c)
    {
      var row := codes[k];
      codes := codes[k := row.(consumedAt := Some(c.mark))];
      var owner := clients[row.client];
      if owner.firstAuthorizedAt.None? {
        clients := clients[row.client := owner.(firstAuthorizedAt := Some(c.mark))];
      }
      AddPair(row.client, row.session, row.scope, row.resource, draw.family, draw, c.issue);
      redeeming := redeeming - {k};
      now := c.issue;
      past := past.(drawn := past.drawn + {draw.access, draw.refresh, draw.family},
                    lines := past.lines[draw.family := Line(row.session, [Digest(draw.refresh)])],
                    origin := past.origin[Digest(draw.access) := k][Digest(draw.refresh) := k]);
      return TokenPair(draw.access, draw.refresh, row.scope);
    }

    /** `_retried_rotation` only reads. */
    method Retried(row: Token, at: Time) returns (pair: Option<(Pair, set<Word>)>)
      ensures pair == RetriedRotation(cfg, View(), row, at)
    {
      if row.sealed.None? || row.replacedBy.None? || row.consumedAt.None? {
        return None;
      }
      if at - row.consumedAt.value > cfg.retrySeconds {
        return None;
      }
      var n := row.replacedBy.value;
      if n !in tokens || tokens[n].kind.Access? || tokens[n].consumedAt.Some? || tokens[n].revokedAt.Some? {
        return None;
      }
      return Some((row.sealed.value, tokens[n].scope));
    }

    /** `POST /token` with a refresh token, up to the call of OKK. */
    method TokenByRefresh(r: RefreshGrant, unseen: set<Digest>, c: Clock) returns (reply: Reply)
      modifies this
      ensures Outcome(View(), reply) == RefreshBegin(cfg, old(View()), r, unseen, c)
    {
      now := c.issue;
      if r.client !in clients {
        return InvalidClient;
      }
      if r.token.None? {
        return InvalidRequest;
      }
      var h := Digest(r.token.value);
      if h !in tokens || tokens[h].kind.Access? || tokens[h].client != r.client || tokens[h].expiresAt <= c.check {
        return InvalidGrant;
      }
      var row := tokens[h];
      if row.consumedAt.Some? {
        var pair := Retried(row, c.mark);
        if pair.Some? {
          return TokenPair(pair.value.0.access, pair.value.0.refresh, pair.value.1);
        }
        tokens := RevokeRows(tokens, FamilyRows(tokens, row.family) - unseen, c.note);
        RevokeUpstream(row.session, c.issue);
        return RefreshReused;
      }
      if row.revokedAt.Some? {
        return InvalidGrant;
      }
      var resource := StripSlashes(if r.resource == "" then row.resource else r.resource);
      if resource != row.resource {
        return InvalidTarget;
      }
      var asks := RefreshScope(r.scope, row.scope);
      if asks.None? || !(asks.value <= row.scope) {
        return InvalidScope;
      }
      inflight := inflight[h := Pending(asks.value, false)];
      return Waiting;
    }

    method ContextAnswered(h: Digest, c: Clock)
      requires h in inflight
      modifies this
      ensures View() == RefreshLive(old(View()), h, c).store
    {
      inflight := inflight[h := inflight[h].(live := true)];
      now := c.issue;
    }

    /** OKK refused the session, or is `down`: the row is let go and nothing is written. */
    method ContextRefused(h: Digest, down: bool, c: Clock) returns (reply: Reply)
      modifies this`inflight, this`now
      ensures Outcome(View(), reply) == RefreshAbort(old(View()), h, down, c)
      ensures tokens == old(tokens) && sessions == old(sessions) && codes == old(codes) && h !in inflight
    {
      inflight := inflight - {h};
      now := c.issue;
      return if down then TemporarilyUnavailable else InvalidGrant;
    }

    /** The rest of `POST /token` with a refresh token, once OKK answered. */
    method FinishRefresh(h: Digest, draw: Draw, c: Clock) returns (reply: Reply)
      requires h in inflight && h in tokens && tokens[h].family in past.lines && h in past.origin
      requires Digest(draw.access) !in tokens && Digest(draw.refresh) !in tokens
      modifies this
      ensures Outcome(View(), reply) == RefreshMint(cfg, old(View()), h, draw, c)
    {
      ghost var s := View();
      var row := tokens[h];
      var scope := inflight[h].scope;
      tokens := tokens[h := row.(consumedAt := Some(c.mark), revokedAt := Some(c.note))];
      AddPair(row.client, row.session, scope, row.resource, row.family, draw, c.issue);
      tokens := tokens[h := tokens[h].(replacedBy := Some(Digest(draw.refresh)),
                                       sealed := Some(Pair(draw.access, draw.refresh)))];
      inflight := inflight - {h};
      now := c.issue;
      LinkingLast(cfg, s.tokens, h, scope, draw, c);
      past := past.(drawn := past.drawn + {draw.access, draw.refresh},
                    lines := past.lines[row.family :=
                      past.lines[row.family].(chain := past.lines[row.family].chain + [Digest(draw.refresh)])],
                    origin := past.origin[Digest(draw.access) := past.origin[h]]
                                            [Digest(draw.refresh) := past.origin[h]]);
      assert View() == s.(tokens := tokens, inflight := inflight, now := now, past := past);
      return TokenPair(draw.access, draw.refresh, scope);
    }

    /** `POST /revoke`. */
    method Revoke(client: ClientId, token: Id, unseen: set<Digest>, c: Clock)
      modifies this
      ensures View() == RevokeToken(old(View()), client, token, unseen, c).store
    {
      now := c.issue;
      var h := Digest(token);
      if h !in tokens || tokens[h].client != client {
        return;
      }
      var row := tokens[h];
      if row.kind.Refresh? {
        tokens := RevokeRows(tokens, FamilyRows(tokens, row.family) - unseen, c.note);
        RevokeUpstream(row.session, c.issue);
      } else {
        tokens := tokens[h := row.(revokedAt := Some(c.note))];
      }
    }

    /** The select of `cleanup_once`: at most 500 sessions, every one an orphan. */
    method SelectOrphans(at: Time) returns (ids: seq<Id>)
      ensures |ids| <= 500
      ensures forall i :: 0 <= i < |ids| ==> ids[i] in Orphans(View(), at)
      ensures forall i, j :: 0 <= i < j < |ids| ==> ids[i] != ids[j]
      ensures |ids| < 500 ==> forall i :: i in Orphans(View(), at) ==> i in ids
    {
      ids := [];
      var left := OrphanRows(sessions, tokens, codes, at);
      while left != {} && |ids| < ORPHANS_PER_PASS
        invariant |ids| <= ORPHANS_PER_PASS
        invariant left <= Orphans(View(), at)
        invariant forall i :: i in Orphans(View(), at) ==> i in left || i in ids
        invariant forall i :: 0 <= i < |ids| ==> ids[i] in Orphans(View(), at) && ids[i] !in left
        invariant forall i, j :: 0 <= i < j < |ids| ==> ids[i] != ids[j]
        decreases left
      {
        var i :| i in left;
        ids := ids + [i];
        left := left - {i};
      }
    }

    method RevokeAll(ids: seq<Id>, clocks: seq<Clock>)
      requires |ids| <= |clocks|
      modifies this
      ensures View() == LoseSessions(old(View()), ids, clocks)
    {
      var n := 0;
      while n < |ids|
        invariant n <= |ids|
        invariant View() == LoseSessions(old(View()), ids[..n], clocks)
      {
        assert ids[..n + 1][..n] == ids[..n];
        RevokeUpstream(ids[n], clocks[n].mark);
        now := clocks[n].issue;
        n := n + 1;
      }
      assert ids[..n] == ids;
    }

    method DeleteCodes(cutoff: Time)
      modifies this`codes
      ensures View() == DropCodes(old(View()), cutoff)
    {
      codes := KeptCodes(codes, cutoff);
    }

    method DeleteTokens(cutoff: Time)
      modifies this`tokens
      ensures View() == DropTokens(old(View()), cutoff)
    {
      tokens := KeptTokens(tokens, cutoff);
    }

    method DeleteSessions(cutoff: Time)
      modifies this`sessions
      ensures View() == DropSessions(old(View()), cutoff)
    {
      sessions := KeptSessions(sessions, tokens, codes, cutoff);
    }

    method ClearRetryPairs(before: Time)
      modifies this`tokens
      ensures View() == ForgetPairs(old(View()), before)
    {
      tokens := ClearPairs(tokens, before);
    }

    method DeleteAbandonedClients(at: Time)
      modifies this`clients
      ensures View() == DropClients(old(View()), at)
    {
      clients := KeptClients(clients, tokens, codes, at);
    }

    /** The second transaction of `cleanup_once`, statement by statement. */
    method PurgeRows(at: Time, c: Clock)
      modifies this
      ensures View() == Purge(cfg, old(View()), at, true, c).store
    {
      hide KeptCodes, KeptTokens, KeptSessions, KeptClients, ClearPairs;
      DeleteCodes(at - cfg.RetentionSeconds());
      DeleteTokens(at - cfg.RetentionSeconds());
      DeleteSessions(at - cfg.RetentionSeconds());
      ClearRetryPairs(at - cfg.retrySeconds);
      DeleteAbandonedClients(at);
      now := c.issue;
    }

    /** `cleanup_once`: revoke orphan sessions one by one, then delete and clear old rows. */
    method CleanupOnce(at: Time, clocks: seq<Clock>, c: Clock) returns (ids: seq<Id>)
      requires |clocks| == ORPHANS_PER_PASS
      modifies this
      ensures |ids| <= 500 && forall i :: 0 <= i < |ids| ==> ids[i] in Orphans(old(View()), at)
      ensures |ids| < 500 ==> forall i :: i in Orphans(old(View()), at) ==> i in ids
      ensures forall i :: SessionActive(View(), i) <==> SessionActive(old(View()), i) && i !in ids
      ensures View() == Purge(cfg, LoseSessions(old(View()), ids, clocks), at, true, c).store
    {
      ids := SelectOrphans(at);
      RevokeAll(ids, clocks);
      PurgeRows(at, c);
      forall i ensures SessionActive(View(), i) <==> SessionActive(old(View()), i) && i !in ids {
        CleanupStops(cfg, old(View()), ids, clocks, at, c, i);
      }
    }

    /** The first read of `verify_token`: the row of an access token that may still be accepted. */
    method ReadAccess(token: Id, at: Time) returns (row: Option<Token>)
      ensures row.Some? <==> AccessRowValid(cfg, View(), Digest(token), at)
      ensures row.Some? ==> row.value == tokens[Digest(token)]
    {
      var h := Digest(token);
      if h !in tokens || tokens[h].kind.Refresh? || tokens[h].revokedAt.Some? || tokens[h].expiresAt <= at
         || StripSlashes(tokens[h].resource) != cfg.resourceUrl {
        return None;
      }
      return Some(tokens[h]);
    }

    /** The rest of `verify_token`, any number of other requests later: the session and what OKK says of it. */
    method AnswerAccess(row: Token, okk: Okk) returns (scope: Option<set<Word>>)
      ensures scope == if SessionActive(View(), row.session) && !okk.Refuses? then Some(row.scope) else None
    {
      if row.session !in sessions || sessions[row.session].revokedAt.Some? {
        return None;
      }
      match okk
      case Refuses => return None;
      case Unreachable => return Some(row.scope);
      case Alive => return Some(row.scope);
    }
  }

  /** The two halves of `verify_token`, on the stores `s` and `later`, are the verification the theorems are
      about. */
  lemma TwoReadsVerify(cfg: Settings, s: Store, later: Store, token: Id, at: Time, okk: Okk)
    ensures VerifyToken(cfg, s, later, token, at, okk) ==
      if AccessRowValid(cfg, s, Digest(token), at) && SessionActive(later, s.tokens[Digest(token)].session)
         && !okk.Refuses?
      then Some(s.tokens[Digest(token)].scope) else None
  {}
}
