/** Concrete runs which show that conditions of the main theorems are needed. */
module GrantWitness {
  import opened Common
  import opened Scopes
  import opened Grants
  import opened GrantInvariant
  import opened GrantOrphans
  import opened CleanupTwin

  const CLIENT: ClientId := "client"
  const START: Clock := Clock(0, 0, 0, 0)
  const VERIFIER: string := "aaaaaaaaaaaaaaaaaaaaaaaaaaaaaaaaaaaaaaaaaaa"

  function SignIn(): Event {
    SignedIn(CLIENT, true, ALLOWED, Consent(false, {}), "uri", S256(VERIFIER), 0, 1, START)
  }

  function Present(c: Clock): Event {
    Exchanged(CodeGrant(CLIENT, Some(1), "uri", VERIFIER, ""), {}, c)
  }

  function RedeemNow(c: Clock): Event {
    Redeemed(Digest(1), Draw(2, 3, 4), c)
  }

  function Ask(c: Clock): Event {
    RefreshAsked(RefreshGrant(CLIENT, Some(3), Absent, ""), {}, c)
  }

  function Rotate(): Event {
    Refreshed(Digest(3), Draw(5, 6, 7), START)
  }

  lemma VerifierMatches()
    ensures VerifyPkce(VERIFIER, S256(VERIFIER))
  {
    assert forall i :: 0 <= i < |VERIFIER| ==> VERIFIER[i] == 'a';
  }

  function SignedInStore(cfg: Settings): Store {
    Login(cfg, EMPTY, CLIENT, true, ALLOWED, Consent(false, {}), "uri", S256(VERIFIER), 0, 1, START).store
  }

  /** A sign-in whose code is presented and passes the checks. */
  lemma OnePresentation(cfg: Settings) returns (s: Store)
    requires cfg.Valid()
    ensures Reachable(cfg, s) && s == SignedInStore(cfg).(redeeming := {Digest(1)})
  {
    EmptyReachable(cfg);
    ReachableStep(cfg, EMPTY, SignIn());
    VerifierMatches();
    ReachableStep(cfg, SignedInStore(cfg), Present(START));
    s := Step(cfg, SignedInStore(cfg), Present(START), true).store;
  }

  /** A sign-in and the exchange of its code. */
  lemma OneExchange(cfg: Settings) returns (s: Store)
    requires cfg.Valid()
    ensures Reachable(cfg, s) && s.now == 0 && s.inflight == map[] && s.redeeming == {} && CLIENT in s.clients
    ensures s.sessions == map[0 := Session(None)] && s.past.drawn == {0, 1, 2, 3, 4}
    ensures Digest(3) in s.tokens
    ensures s.tokens[Digest(3)] == NewToken(cfg, Refresh, CLIENT, 0, ALLOWED, cfg.resourceUrl, 4, 0)
    ensures 4 in s.past.lines && Digest(3) in s.past.origin
    ensures forall h :: h in s.tokens ==> s.tokens[h].expiresAt <= cfg.RefreshSeconds() + cfg.AccessSeconds()
    ensures forall k :: k in s.codes ==> s.codes[k].consumedAt.Some?
  {
    hide VerifyPkce;
    var presented := OnePresentation(cfg);
    assert NewDrawIds(Draw(2, 3, 4)) == [2, 3, 4];
    assert Enabled(cfg, presented, RedeemNow(START));
    ReachableStep(cfg, presented, RedeemNow(START));
    s := Step(cfg, presented, RedeemNow(START), true).store;
    assert s.past.drawn == {0, 1, 2, 3, 4};
  }

  /** A refresh of the first refresh token, past OKK. */
  lemma OneLiveRefresh(cfg: Settings) returns (s: Store)
    requires cfg.Valid()
    ensures Reachable(cfg, s) && s.now == 0 && CLIENT in s.clients && 99 !in s.sessions
    ensures s.past.drawn == {0, 1, 2, 3, 4}
    ensures s.inflight == map[Digest(3) := Pending(ALLOWED, true)] && s.redeeming == {} && SessionActive(s, 0)
    ensures Digest(3) in s.tokens
    ensures s.tokens[Digest(3)] == NewToken(cfg, Refresh, CLIENT, 0, ALLOWED, cfg.resourceUrl, 4, 0)
    ensures 4 in s.past.lines && Digest(3) in s.past.origin
    ensures forall h :: h in s.tokens ==> s.tokens[h].expiresAt <= cfg.RefreshSeconds() + cfg.AccessSeconds()
    ensures forall k :: k in s.codes ==> s.codes[k].consumedAt.Some?
  {
    var s2 := OneExchange(cfg);
    RefreshScopeGrantable(Absent, ALLOWED);
    assert OpenId in ALLOWED;
    var asked := RefreshBegin(cfg, s2, Ask(START).refresh, {}, START);
    assert asked.store == s2.(inflight := map[Digest(3) := Pending(ALLOWED, false)]);
    ReachableStep(cfg, s2, Ask(START));
    var e := ContextLive(Digest(3), START);
    ReachableStep(cfg, asked.store, e);
    s := Step(cfg, asked.store, e, true).store;
  }

  /** A grant kept alive: `x` is its newest refresh token, issued at `at`; the first one is used. */
  ghost predicate Tail(cfg: Settings, s: Store, x: Id, at: Time) {
    && Reachable(cfg, s) && s.now == at && s.inflight == map[] && s.redeeming == {} && CLIENT in s.clients
    && SessionActive(s, 0)
    && Digest(x) in s.tokens
    && s.tokens[Digest(x)] == NewToken(cfg, Refresh, CLIENT, 0, ALLOWED, cfg.resourceUrl, 4, at)
    && x != 3 && IsRefreshRow(s, Digest(3))
    && s.tokens[Digest(3)].client == CLIENT && s.tokens[Digest(3)].session == 0
    && s.tokens[Digest(3)].revokedAt == Some(0)
  }

  /** One refresh after the exchange, still at time 0: the first refresh token is used up. */
  lemma OneRefresh(cfg: Settings) returns (s: Store)
    requires cfg.Valid()
    ensures Tail(cfg, s, 6, 0) && 99 !in s.sessions
    ensures IsRefreshRow(s, Digest(3))
    ensures var row := s.tokens[Digest(3)];
      row.client == CLIENT && row.consumedAt == Some(0) && row.revokedAt == Some(0)
        && row.expiresAt == cfg.RefreshSeconds()
  {
    var s4 := OneLiveRefresh(cfg);
    ReachableStep(cfg, s4, Rotate());
    s := Step(cfg, s4, Rotate(), true).store;
  }

  /** Some time later a cleanup and then a second use of the first refresh token. */
  function LateReuse(later: Time): seq<Event> {
    var c := Clock(later, later, later, later);
    [SessionLost(99, c), Purged(later, c), Ask(c)]
  }

  /** What the late cleanup leaves of the used token. */
  lemma LatePurge(cfg: Settings, s: Store, later: Time, c: Clock, forget: bool)
    requires cfg.Valid() && CLIENT in s.clients && s.clients[CLIENT].firstAuthorizedAt.Some?
    requires IsRefreshRow(s, Digest(3))
    requires s.tokens[Digest(3)].revokedAt == Some(0) && later == cfg.RetentionSeconds() + 1
    ensures var t := Purge(cfg, s, later, forget, c).store;
      && CLIENT in t.clients && t.inflight == s.inflight && t.now == c.issue
      && (forget ==> Digest(3) !in t.tokens)
      && (!forget ==> Digest(3) in t.tokens && t.tokens[Digest(3)] == s.tokens[Digest(3)])
  {
    hide KeptSessions, KeptCodes;
  }

  lemma LateReuseAnswers(cfg: Settings, s: Store, later: Time, forget: bool)
    requires cfg.Valid() && s.now == 0 && s.inflight == map[] && s.redeeming == {} && CLIENT in s.clients
    requires 99 !in s.sessions && IsRefreshRow(s, Digest(3))
    requires var row := s.tokens[Digest(3)];
      row.client == CLIENT && row.consumedAt == Some(0) && row.revokedAt == Some(0)
        && row.expiresAt == cfg.RefreshSeconds()
    requires s.clients[CLIENT].firstAuthorizedAt.Some?
    requires later == cfg.RetentionSeconds() + 1 && later < cfg.RefreshSeconds()
    ensures var out := Answers(cfg, s, LateReuse(later), forget);
      |out| == 3 && (forget ==> out[2] == InvalidGrant) && (!forget ==> out[2] == RefreshReused)
    ensures forget ==> Runs(cfg, s, LateReuse(later))
  {
    hide Purge, FamilyRows, RevokeRows;
    var es, c := LateReuse(later), Clock(later, later, later, later);
    var s1 := Step(cfg, s, es[0], forget).store;
    var s2 := Step(cfg, s1, es[1], forget).store;
    assert s1 == s.(now := later);
    LatePurge(cfg, s1, later, c, forget);
    assert Enabled(cfg, s2, es[2]);
    assert es[2..] == [es[2]] && es[2..][1..] == [] && es[1..][1..] == es[2..];
    var s3 := Step(cfg, s2, es[2], forget);
    assert Answers(cfg, s2, es[2..], forget) == [s3.reply];
    assert Answers(cfg, s1, es[1..], forget) == [Step(cfg, s1, es[1], forget).reply] + [s3.reply];
    if forget {
      assert Runs(cfg, s3.store, []);
      assert Runs(cfg, s2, es[2..]);
      assert Runs(cfg, s1, es[1..]);
    }
  }

  lemma NothingRecalled(cfg: Settings, s: Store, u: Store, events: seq<Event>)
    requires forall i :: 0 <= i < |events| ==> !events[i].Revoked?
    ensures RecallsHarmless(cfg, s, u, events)
    decreases |events|
  {}

  /** The cleanup is invisible exactly when the retention is at least the life of a refresh token. */
  lemma InvisibleIffRetained(cfg: Settings)
    requires cfg.Valid()
    ensures cfg.refreshDays <= cfg.retentionDays <==>
      (forall s, events :: Reachable(cfg, s) && Runs(cfg, s, events) && RecallsHarmless(cfg, s, s, events) ==>
         Answers(cfg, s, events, true) == Answers(cfg, s, events, false))
  {
    hide Step, Enabled, Orphans;
    if cfg.refreshDays <= cfg.retentionDays {
      forall s, events | Reachable(cfg, s) && Runs(cfg, s, events) && RecallsHarmless(cfg, s, s, events)
        ensures Answers(cfg, s, events, true) == Answers(cfg, s, events, false)
      {
        CleanupIsInvisible(cfg, s, events);
      }
    } else {
      var s := OneRefresh(cfg);
      ReachableKeeps(cfg, s);
      assert TokenOk(s, Digest(3));
      var events := LateReuse(cfg.RetentionSeconds() + 1);
      LateReuseAnswers(cfg, s, cfg.RetentionSeconds() + 1, true);
      LateReuseAnswers(cfg, s, cfg.RetentionSeconds() + 1, false);
      NothingRecalled(cfg, s, s, events);
    }
  }

  /** The newest refresh token is refreshed again at any time of its life. */
  lemma RefreshAt(cfg: Settings, s: Store, x: Id, issued: Time, at: Time) returns (t: Store, y: Id, access: Id)
    requires cfg.Valid() && Tail(cfg, s, x, issued) && issued <= at < issued + cfg.RefreshSeconds()
    ensures Tail(cfg, t, y, at)
    ensures Digest(access) in t.tokens
    ensures t.tokens[Digest(access)] == NewToken(cfg, Access, CLIENT, 0, ALLOWED, cfg.resourceUrl, 4, at)
  {
    var c, h := Clock(at, at, at, at), Digest(x);
    var asked := AskNewest(cfg, s, x, issued, c);
    ReachableStep(cfg, asked, ContextLive(h, c));
    var live := Step(cfg, asked, ContextLive(h, c), true).store;
    assert live == s.(inflight := map[h := Pending(ALLOWED, true)], now := at);
    ReachableKeeps(cfg, live);
    t, y, access := MintNewest(cfg, live, x, issued, at);
  }

  lemma MintNewest(cfg: Settings, s: Store, x: Id, issued: Time, at: Time)
    returns (t: Store, y: Id, access: Id)
    requires cfg.Valid() && Reachable(cfg, s) && Inv(cfg, s) && s.now == at && s.redeeming == {} && CLIENT in s.clients
    requires Digest(x) in s.tokens && s.inflight == map[Digest(x) := Pending(ALLOWED, true)]
    requires s.tokens[Digest(x)] == NewToken(cfg, Refresh, CLIENT, 0, ALLOWED, cfg.resourceUrl, 4, issued)
    requires x != 3 && IsRefreshRow(s, Digest(3)) && SessionActive(s, 0)
    requires s.tokens[Digest(3)].client == CLIENT && s.tokens[Digest(3)].session == 0
    requires s.tokens[Digest(3)].revokedAt == Some(0)
    ensures Tail(cfg, t, y, at) && Digest(access) in t.tokens
    ensures t.tokens[Digest(access)] == NewToken(cfg, Access, CLIENT, 0, ALLOWED, cfg.resourceUrl, 4, at)
  {
    var h, c := Digest(x), Clock(at, at, at, at);
    var n := UndrawnFrom(s.past.drawn);
    var draw := Draw(n, n + 1, n + 2);
    DrawIsNew(cfg, s, draw);
    assert TokenOk(s, h);
    ReachableStep(cfg, s, Refreshed(h, draw, c));
    t, y, access := Step(cfg, s, Refreshed(h, draw, c), true).store, n + 1, n;
  }

  lemma AskNewest(cfg: Settings, s: Store, x: Id, issued: Time, c: Clock) returns (asked: Store)
    requires cfg.Valid() && Tail(cfg, s, x, issued) && c.After(s.now) && c.check < issued + cfg.RefreshSeconds()
    ensures Reachable(cfg, asked)
    ensures asked == s.(inflight := map[Digest(x) := Pending(ALLOWED, false)], now := c.issue)
  {
    var r := RefreshGrant(CLIENT, Some(x), Absent, "");
    RefreshScopeGrantable(Absent, ALLOWED);
    assert OpenId in ALLOWED;
    var e := RefreshAsked(r, {}, c);
    ReachableStep(cfg, s, e);
    asked := Step(cfg, s, e, true).store;
  }

  /** A client that refreshes in time keeps its grant alive for as long as it likes. */
  lemma {:induction false} KeepAlive(cfg: Settings, s: Store, x: Id, issued: Time, until: Time)
    returns (t: Store, y: Id, access: Id)
    requires cfg.Valid() && Tail(cfg, s, x, issued) && issued <= until
    ensures Tail(cfg, t, y, until)
    ensures Digest(access) in t.tokens
    ensures t.tokens[Digest(access)] == NewToken(cfg, Access, CLIENT, 0, ALLOWED, cfg.resourceUrl, 4, until)
    decreases until - issued
  {
    hide Tail;
    if until < issued + cfg.RefreshSeconds() {
      t, y, access := RefreshAt(cfg, s, x, issued, until);
    } else {
      var next := issued + cfg.RefreshSeconds() - 1;
      var s', x', _ := RefreshAt(cfg, s, x, issued, next);
      t, y, access := KeepAlive(cfg, s', x', next, until);
    }
  }

  function Recall(at: Time): seq<Event> {
    var c := Clock(at, at, at, at);
    [Purged(at, c), Revoked(CLIENT, 3, {}, c)]
  }

  /** What the cleanup leaves of a grant whose first refresh token is past the retention. */
  lemma PurgeForgetsTheFirst(cfg: Settings, s: Store, x: Id, access: Id, at: Time)
    requires cfg.Valid() && Tail(cfg, s, x, at) && at == cfg.RetentionSeconds() + 1
    requires Digest(access) in s.tokens
    requires s.tokens[Digest(access)] == NewToken(cfg, Access, CLIENT, 0, ALLOWED, cfg.resourceUrl, 4, at)
    ensures var c := Clock(at, at, at, at);
      var t, u := Purge(cfg, s, at, true, c).store, Purge(cfg, s, at, false, c).store;
      && t.now == u.now == at && t.inflight == u.inflight == map[]
      && Digest(3) !in t.tokens && Digest(3) in u.tokens && u.tokens[Digest(3)] == s.tokens[Digest(3)]
      && Digest(access) in t.tokens && t.tokens[Digest(access)] == s.tokens[Digest(access)]
      && SessionActive(t, 0)
  {
    hide KeptCodes, KeptClients, Reachable;
  }

  /** The condition on recalls is met by no settings of its own accord: whatever they are, a client can keep
      a grant alive past the retention and then revoke its first refresh token. The access token that is
      still accepted would be refused had the row been kept. */
  lemma RecallIsReal(cfg: Settings) returns (s: Store, at: Time, token: Id)
    requires cfg.Valid() && cfg.refreshDays <= cfg.retentionDays
    ensures Reachable(cfg, s) && Runs(cfg, s, Recall(at)) && !RecallsHarmless(cfg, s, s, Recall(at))
    ensures var t, u := Final(cfg, s, Recall(at), true), Final(cfg, s, Recall(at), false);
      && VerifyToken(cfg, t, t, token, at, Alive) == Some(ALLOWED)
      && VerifyToken(cfg, u, u, token, at, Alive) == None
  {
    at := cfg.RetentionSeconds() + 1;
    var first := OneRefresh(cfg);
    var x: Id;
    s, x, token := KeepAlive(cfg, first, 6, 0, at);
    RecallAnswers(cfg, s, x, token, at);
  }

  lemma RecallAnswers(cfg: Settings, s: Store, x: Id, token: Id, at: Time)
    requires cfg.Valid() && cfg.refreshDays <= cfg.retentionDays && Tail(cfg, s, x, at)
    requires at == cfg.RetentionSeconds() + 1
    requires Digest(token) in s.tokens
    requires s.tokens[Digest(token)] == NewToken(cfg, Access, CLIENT, 0, ALLOWED, cfg.resourceUrl, 4, at)
    ensures Runs(cfg, s, Recall(at)) && !RecallsHarmless(cfg, s, s, Recall(at))
    ensures var t, u := Final(cfg, s, Recall(at), true), Final(cfg, s, Recall(at), false);
      && VerifyToken(cfg, t, t, token, at, Alive) == Some(ALLOWED)
      && VerifyToken(cfg, u, u, token, at, Alive) == None
  {
    hide Purge, Inv, Twin, Reachable;
    var c := Clock(at, at, at, at);
    var purge, revoke := Recall(at)[0], Recall(at)[1];
    var t, u := Step(cfg, s, purge, true).store, Step(cfg, s, purge, false).store;
    PurgeForgetsTheFirst(cfg, s, x, token, at);
    ReachableKeeps(cfg, s);
    TwinOfItself(cfg, s);
    StepTwin(cfg, s, s, purge);
    StepKeeps(cfg, s, purge, true);
    StepKeeps(cfg, s, purge, false);
    RecallTellsThemApart(cfg, t, u, revoke, token, at);
    TwoEvents(cfg, s, purge, revoke);
  }

  lemma OneEvent(cfg: Settings, s: Store, e: Event, forget: bool)
    requires Enabled(cfg, s, e)
    ensures Final(cfg, s, [e], forget) == Step(cfg, s, e, forget).store
    ensures forget ==> Runs(cfg, s, [e])
  {
    hide Step, Enabled;
    assert [e][1..] == [];
    assert Final(cfg, Step(cfg, s, e, forget).store, [], forget) == Step(cfg, s, e, forget).store;
    assert Runs(cfg, Step(cfg, s, e, true).store, []);
  }

  /** A run of two events, read off. */
  lemma TwoEvents(cfg: Settings, s: Store, a: Event, b: Event)
    requires Enabled(cfg, s, a)
    requires Enabled(cfg, Step(cfg, s, a, true).store, b) && Enabled(cfg, Step(cfg, s, a, false).store, b)
    ensures Runs(cfg, s, [a, b])
    ensures Final(cfg, s, [a, b], true) == Step(cfg, Step(cfg, s, a, true).store, b, true).store
    ensures Final(cfg, s, [a, b], false) == Step(cfg, Step(cfg, s, a, false).store, b, false).store
    ensures RecallsHarmless(cfg, s, s, [a, b]) ==>
      Harmless(Step(cfg, s, a, true).store, Step(cfg, s, a, false).store, b)
  {
    hide Step, Enabled, Harmless;
    assert [a, b][1..] == [b];
    var t, u := Step(cfg, s, a, true).store, Step(cfg, s, a, false).store;
    OneEvent(cfg, t, b, true);
    OneEvent(cfg, u, b, false);
    assert Final(cfg, s, [a, b], false) == Final(cfg, u, [b], false);
    assert RecallsHarmless(cfg, s, s, [a, b]) ==> RecallsHarmless(cfg, t, u, [b]);
  }

  /** A store can be reached in which the cleanup sees an orphan while one of its refreshes still waits. */
  lemma OrphanWithRefreshInFlight(cfg: Settings) returns (s: Store)
    requires cfg.Valid()
    ensures Reachable(cfg, s) && 0 in Orphans(s, s.now) && !Settled(s, 0)
  {
    var early := OneLiveRefresh(cfg);
    var later := cfg.RefreshSeconds() + cfg.AccessSeconds();
    var e := SessionLost(99, Clock(later, later, later, later));
    ReachableStep(cfg, early, e);
    s := Step(cfg, early, e, true).store;
    assert s.tokens == early.tokens && s.codes == early.codes && s.sessions == early.sessions;
    assert Digest(3) in s.inflight && s.tokens[Digest(3)].session == 0;
  }

  /** And one in which it sees an orphan while the code it was exchanged for is still being redeemed. */
  lemma OrphanWithExchangeUnderWay(cfg: Settings) returns (s: Store)
    requires cfg.Valid()
    ensures Reachable(cfg, s) && 0 in Orphans(s, s.now) && s.redeeming == {Digest(1)} && s.inflight == map[]
    ensures !Settled(s, 0)
  {
    var presented := OnePresentation(cfg);
    var later := cfg.CodeSeconds();
    var e := SessionLost(99, Clock(later, later, later, later));
    ReachableStep(cfg, presented, e);
    s := Step(cfg, presented, e, true).store;
    assert Digest(1) in s.redeeming && s.codes[Digest(1)].session == 0;
  }
}
