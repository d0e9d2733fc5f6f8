/** Whether the cleanup's read of orphan sessions can still be trusted when it revokes them. */
module GrantOrphans {
  import opened Scopes
  import opened Grants
  import opened GrantInvariant
  import opened GrantHistory

  /** Neither a refresh nor a code exchange of the session holds a row lock. */
  predicate Settled(s: Store, session: Id) {
    && (forall h :: h in s.inflight && h in s.tokens ==> s.tokens[h].session != session)
    && (forall k :: k in s.redeeming && k in s.codes ==> s.codes[k].session != session)
  }

  ghost predicate Spent(s: Store, session: Id, at: Time) {
    && session in s.past.grants && at <= s.now
    && !HasLiveCredential(s, session, at)
    && Settled(s, session)
  }

  lemma SpentToken(s: Store, session: Id, at: Time, h: Digest)
    requires Spent(s, session, at) && h in s.tokens
    ensures !LiveToken(s.tokens[h], session, at)
  {}

  lemma SpentCode(s: Store, session: Id, at: Time, k: Digest)
    requires Spent(s, session, at) && k in s.codes
    ensures !LiveCode(s.codes[k], session, at)
  {}

  /** A token of the session that is live after an event was live before it. */
  lemma NoTokenRevives(cfg: Settings, s: Store, e: Event, session: Id, at: Time, h: Digest)
    requires cfg.Valid() && Inv(cfg, s) && Enabled(cfg, s, e) && Spent(s, session, at)
    requires h in Step(cfg, s, e, true).store.tokens
    ensures !LiveToken(Step(cfg, s, e, true).store.tokens[h], session, at)
  {
    var t := Step(cfg, s, e, true).store;
    if h in s.tokens {
      StepLater(cfg, s, e);
      assert TokenOk(s, h);
      assert RowLater(cfg, s.tokens[h], t.tokens[h], t.now);
      SpentToken(s, session, at, h);
    } else {
      NewTokenFrom(cfg, s, e, h);
    }
  }

  lemma NoCodeRevives(cfg: Settings, s: Store, e: Event, session: Id, at: Time, k: Digest)
    requires cfg.Valid() && Inv(cfg, s) && Enabled(cfg, s, e) && Spent(s, session, at)
    requires k in Step(cfg, s, e, true).store.codes
    ensures !LiveCode(Step(cfg, s, e, true).store.codes[k], session, at)
  {
    CodesAfter(cfg, s, e, k);
    if k in s.codes { SpentCode(s, session, at, k); }
    if e.SignedIn? {
      assert [e.session, e.code][0] == e.session;
      NewSession(cfg, s, e.session);
    }
  }

  lemma RowStaysSettled(cfg: Settings, s: Store, e: Event, session: Id, at: Time, h: Digest)
    requires cfg.Valid() && Inv(cfg, s) && Enabled(cfg, s, e) && Spent(s, session, at)
    requires var t := Step(cfg, s, e, true).store; h in t.inflight && h in t.tokens
    ensures Step(cfg, s, e, true).store.tokens[h].session != session
  {
    hide Step, Enabled;
    LocksBefore(cfg, s, e, h);
    if h in s.inflight { assert InflightOk(s, h); }
    StepLater(cfg, s, e);
    assert TokenOk(s, h);
    assert RowLater(cfg, s.tokens[h], Step(cfg, s, e, true).store.tokens[h], Step(cfg, s, e, true).store.now);
    SpentToken(s, session, at, h);
  }

  lemma CodeStaysSettled(cfg: Settings, s: Store, e: Event, session: Id, at: Time, k: Digest)
    requires cfg.Valid() && Inv(cfg, s) && Enabled(cfg, s, e) && Spent(s, session, at)
    requires var t := Step(cfg, s, e, true).store; k in t.redeeming && k in t.codes
    ensures Step(cfg, s, e, true).store.codes[k].session != session
  {
    CodeLocksBefore(cfg, s, e, k);
    CodesAfter(cfg, s, e, k);
    if e.SignedIn? {
      assert [e.session, e.code][0] == e.session;
      NewSession(cfg, s, e.session);
    } else if k !in s.redeeming {
      SpentCode(s, session, at, k);
    }
  }

  /** A row lock is older than the event, or the event takes it on a live token. */
  lemma LocksBefore(cfg: Settings, s: Store, e: Event, h: Digest)
    requires Enabled(cfg, s, e) && h in Step(cfg, s, e, true).store.inflight
    ensures s.now <= e.c.check
    ensures h in s.inflight || (h in s.tokens && e.c.check < s.tokens[h].expiresAt && s.tokens[h].revokedAt.None?)
  {
    hide Sweep, Unlocked, RetriedRotation, StripSlashes, RefreshScope;
  }

  lemma CodeLocksBefore(cfg: Settings, s: Store, e: Event, k: Digest)
    requires Enabled(cfg, s, e) && k in Step(cfg, s, e, true).store.redeeming
    ensures s.now <= e.c.check
    ensures k in s.redeeming || (k in s.codes && LiveCode(s.codes[k], s.codes[k].session, e.c.check))
  {
    hide Sweep, Unlocked, RetriedRotation, StripSlashes, RefreshScope, VerifyPkce;
  }

  lemma {:induction false} SpentRun(cfg: Settings, s: Store, events: seq<Event>, session: Id, at: Time)
    requires cfg.Valid() && Inv(cfg, s) && Runs(cfg, s, events) && Spent(s, session, at)
    ensures Spent(After(cfg, s, events), session, at)
    decreases |events|
  {
    if events != [] {
      var t := Step(cfg, s, events[0], true).store;
      StepKeeps(cfg, s, events[0], true);
      StepLater(cfg, s, events[0]);
      forall h | h in t.tokens
        ensures !LiveToken(t.tokens[h], session, at)
      {
        NoTokenRevives(cfg, s, events[0], session, at, h);
      }
      forall k | k in t.codes
        ensures !LiveCode(t.codes[k], session, at)
      {
        NoCodeRevives(cfg, s, events[0], session, at, k);
      }
      forall h | h in t.inflight && h in t.tokens ensures t.tokens[h].session != session {
        RowStaysSettled(cfg, s, events[0], session, at, h);
      }
      forall k | k in t.redeeming && k in t.codes ensures t.codes[k].session != session {
        CodeStaysSettled(cfg, s, events[0], session, at, k);
      }
      SpentRun(cfg, t, events[1..], session, at);
    }
  }

  /** A refresh in flight can give an orphan a live token again. */
  lemma InFlightRevives(cfg: Settings, s: Store, session: Id, h: Digest) returns (events: seq<Event>)
    requires cfg.Valid() && Inv(cfg, s) && SessionActive(s, session)
    requires h in s.inflight && h in s.tokens && s.tokens[h].session == session
    ensures Runs(cfg, s, events)
    ensures HasLiveCredential(After(cfg, s, events), session, After(cfg, s, events).now)
  {
    var n := UndrawnFrom(s.past.drawn);
    var c := Clock(s.now, s.now, s.now, s.now);
    var draw := Draw(n, n + 1, n + 2);
    var answered := ContextLive(h, c);
    var minted := Refreshed(h, draw, c);
    assert TokenOk(s, h);
    var t := Step(cfg, s, answered, true).store;
    assert Enabled(cfg, t, minted);
    var u := Step(cfg, t, minted, true).store;
    events := [answered, minted];
    assert events[1..] == [minted] && [minted][1..] == [];
    assert Runs(cfg, u, []) && Runs(cfg, t, [minted]);
    assert After(cfg, u, []) == u && After(cfg, t, [minted]) == u;
    assert Digest(n + 1) in u.tokens && LiveToken(u.tokens[Digest(n + 1)], session, u.now);
  }

  /** A code exchange past its checks can give an orphan a live token again. */
  lemma RedeemingRevives(cfg: Settings, s: Store, session: Id, k: Digest) returns (events: seq<Event>)
    requires cfg.Valid() && Inv(cfg, s) && k in s.redeeming && k in s.codes && s.codes[k].session == session
    ensures Runs(cfg, s, events)
    ensures HasLiveCredential(After(cfg, s, events), session, After(cfg, s, events).now)
  {
    var n := UndrawnFrom(s.past.drawn);
    var redeemed := Redeemed(k, Draw(n, n + 1, n + 2), Clock(s.now, s.now, s.now, s.now));
    assert CodeOk(s, k);
    assert Enabled(cfg, s, redeemed);
    var t := Step(cfg, s, redeemed, true).store;
    events := [redeemed];
    assert events[1..] == [];
    assert Runs(cfg, t, []) && After(cfg, t, []) == t;
    assert Digest(n + 1) in t.tokens && LiveToken(t.tokens[Digest(n + 1)], session, t.now);
  }

  /** The claim that an orphan never regains a live credential is false of the code in two cases, and
      exactly there: while a refresh of the session waits for OKK, and while an exchange of its code has
      passed the checks and not committed. The token or code was live when it was presented and expires
      before the writes; the cleanup then reads the session as an orphan and a pair is issued all the
      same. Without such a request an orphan stays one for ever, so revoking it in a later transaction
      ends no usable connection. */
  lemma OrphanStaysIffNothingInFlight(cfg: Settings, s: Store, session: Id, at: Time)
    requires cfg.Valid() && Reachable(cfg, s) && at <= s.now && session in Orphans(s, at)
    ensures Settled(s, session) <==>
      (forall t :: Leads(cfg, s, t) ==> !HasLiveCredential(t, session, t.now))
  {
    ReachableKeeps(cfg, s);
    assert SessionOk(s, session);
    if Settled(s, session) {
      forall t | Leads(cfg, s, t) ensures !HasLiveCredential(t, session, t.now) {
        var events :| Runs(cfg, s, events) && After(cfg, s, events) == t;
        SpentRun(cfg, s, events, session, at);
      }
    } else {
      var events: seq<Event>;
      if h :| h in s.inflight && h in s.tokens && s.tokens[h].session == session {
        events := InFlightRevives(cfg, s, session, h);
      } else {
        var k :| k in s.redeeming && k in s.codes && s.codes[k].session == session;
        events := RedeemingRevives(cfg, s, session, k);
      }
      assert Leads(cfg, s, After(cfg, s, events));
    }
  }
}
