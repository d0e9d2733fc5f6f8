/** The cleanup forgets token rows and sealed pairs; nobody can tell. A run is compared with the same
    run under a cleanup that keeps every token row and every sealed pair for ever. */
module CleanupTwin {
  import opened Common
  import opened Scopes
  import opened Grants
  import opened GrantInvariant

  // ---------------------------------------------------------------- the relation

  /** A row only the remembering store still has: no refresh and no verification can use it. */
  predicate Useless(t: Token, now: Time) {
    t.expiresAt <= now || (t.kind.Access? && t.revokedAt.Some?)
  }

  /** The row `a` of the real store against the row `b` that forgets no sealed pair. */
  predicate SameButPair(cfg: Settings, a: Token, b: Token, now: Time) {
    a == b ||
    (a == b.(sealed := None) && b.consumedAt.Some? && b.consumedAt.value + cfg.retrySeconds < now)
  }

  /** `s` forgets, `u` remembers. */
  ghost predicate Twin(cfg: Settings, s: Store, u: Store) {
    && s == u.(tokens := s.tokens, sessions := s.sessions)
    && (forall i {:trigger s.sessions[i]} {:trigger i in s.sessions} ::
          i in s.sessions ==> i in u.sessions && u.sessions[i] == s.sessions[i])
    && (forall i {:trigger u.sessions[i]} {:trigger i in s.sessions} ::
          i in u.sessions && i !in s.sessions ==> u.sessions[i].revokedAt.Some?)
    && (forall h {:trigger s.tokens[h]} {:trigger h in s.tokens} ::
          h in s.tokens ==> h in u.tokens && SameButPair(cfg, s.tokens[h], u.tokens[h], s.now))
    && (forall h {:trigger u.tokens[h]} {:trigger h in s.tokens} ::
          h in u.tokens && h !in s.tokens ==> Useless(u.tokens[h], s.now))
  }

  ghost predicate Pairable(cfg: Settings, s: Store, u: Store) {
    cfg.Valid() && Inv(cfg, s) && Inv(cfg, u) && Twin(cfg, s, u)
  }

  /** A /revoke that presents a refresh token only the remembering store knows. */
  predicate Recalls(s: Store, u: Store, e: Event) {
    && e.Revoked?
    && IsOwnToken(u, e.client, e.token)
    && u.tokens[Digest(e.token)].kind.Refresh?
    && Digest(e.token) !in s.tokens
  }

  /** The real store has nothing left for that /revoke to end: the session has stopped, and the family has
      no unrevoked row the UPDATE would reach. */
  predicate NothingLeft(s: Store, row: Token, unseen: set<Digest>) {
    !SessionActive(s, row.session) && FamilyRows(s.tokens, row.family) <= unseen
  }

  /** Not a recall, or one with nothing left to end. */
  predicate Harmless(s: Store, u: Store, e: Event) {
    Recalls(s, u, e) ==> NothingLeft(s, u.tokens[Digest(e.token)], e.unseen)
  }

  // ---------------------------------------------------------------- reading the two stores

  lemma SharedParts(cfg: Settings, s: Store, u: Store)
    requires Twin(cfg, s, u)
    ensures s == u.(tokens := s.tokens, sessions := s.sessions)
  {}

  lemma SameActive(cfg: Settings, s: Store, u: Store, session: Id)
    requires Twin(cfg, s, u)
    ensures SessionActive(s, session) <==> SessionActive(u, session)
  {}

  lemma SameVerification(cfg: Settings, s: Store, u: Store, s': Store, u': Store, token: Id, at: Time, okk: Okk)
    requires Twin(cfg, s, u) && Twin(cfg, s', u') && s.now <= at
    ensures VerifyToken(cfg, s, s', token, at, okk) == VerifyToken(cfg, u, u', token, at, okk)
  {
    var h := Digest(token);
    assert h in s.tokens ==> h in u.tokens && SameButPair(cfg, s.tokens[h], u.tokens[h], s.now);
    if h in u.tokens { SameActive(cfg, s', u', u.tokens[h].session); }
  }

  lemma SamePresentable(cfg: Settings, s: Store, u: Store, r: RefreshGrant, at: Time)
    requires Twin(cfg, s, u) && s.now <= at
    ensures Presentable(s, r, at) <==> Presentable(u, r, at)
    ensures Presentable(s, r, at) ==>
      SameButPair(cfg, s.tokens[Digest(r.token.value)], u.tokens[Digest(r.token.value)], s.now)
  {
    if r.token.Some? { assert Digest(r.token.value) in s.tokens || Digest(r.token.value) !in s.tokens; }
  }

  /** The retry answer of a presented row: forgetting the pair or the successor cannot change it. */
  lemma SameRetry(cfg: Settings, s: Store, u: Store, h: Digest, at: Time)
    requires Pairable(cfg, s, u) && s.now <= at && IsRefreshRow(s, h) && s.now < s.tokens[h].expiresAt
    ensures h in u.tokens
    ensures RetriedRotation(cfg, s, s.tokens[h], at) == RetriedRotation(cfg, u, u.tokens[h], at)
  {
    assert h in u.tokens && SameButPair(cfg, s.tokens[h], u.tokens[h], s.now);
    var i := Place(cfg, s, h);
    if s.tokens[h].replacedBy.Some? {
      var n := s.tokens[h].replacedBy.value;
      assert n in s.tokens;
      assert LineOk(cfg, s, s.tokens[h].family) && LinkOk(cfg, s, s.tokens[h].family, i + 1);
      assert n in u.tokens && SameButPair(cfg, s.tokens[n], u.tokens[n], s.now);
    }
  }

  /** Both stores select the same orphans. */
  lemma SameOrphans(cfg: Settings, s: Store, u: Store)
    requires Twin(cfg, s, u)
    ensures Orphans(s, s.now) == Orphans(u, u.now)
  {
    var at := s.now;
    forall session ensures HasLiveCredential(s, session, at) <==> HasLiveCredential(u, session, at) {
      if h :| h in s.tokens && LiveToken(s.tokens[h], session, at) {
        assert h in u.tokens && LiveToken(u.tokens[h], session, at);
      }
      if h :| h in u.tokens && LiveToken(u.tokens[h], session, at) {
        assert h in s.tokens && LiveToken(s.tokens[h], session, at);
      }
    }
    forall i ensures i in Orphans(s, at) <==> i in Orphans(u, at) { assert i in s.sessions || i !in s.sessions; }
  }

  // ---------------------------------------------------------------- one event

  /** What an event needs and sweeps is the same in both stores. */
  lemma SameEnabled(cfg: Settings, s: Store, u: Store, e: Event)
    requires Pairable(cfg, s, u) && Enabled(cfg, s, e) && Harmless(s, u, e)
    ensures Enabled(cfg, u, e)
  {
    hide Inv, Twin, Sweep;
    SharedParts(cfg, s, u);
    forall h | h in u.inflight
      ensures h in s.tokens && h in u.tokens && u.tokens[h] == s.tokens[h] && h !in Sweep(cfg, u, e)
    {
      LockedIsSame(cfg, s, u, h);
      assert h !in Sweep(cfg, s, e);
      SweepTwin(cfg, s, u, e, h);
    }
    match e
    case RefreshAsked(r, _, c) =>
      SamePresentable(cfg, s, u, r, c.check);
      if Presentable(s, r, c.check) { SameWait(cfg, s, u, Digest(r.token.value), c.mark); }
    case ContextLive(h, _) => SameActive(cfg, s, u, s.tokens[h].session);
    case _ =>
  }

  lemma LockedIsSame(cfg: Settings, s: Store, u: Store, h: Digest)
    requires Pairable(cfg, s, u) && h in u.inflight
    ensures h in s.tokens && h in u.tokens && u.tokens[h] == s.tokens[h]
  {
    assert InflightOk(s, h);
    assert h in u.tokens && SameButPair(cfg, s.tokens[h], u.tokens[h], s.now);
  }

  lemma SameWait(cfg: Settings, s: Store, u: Store, h: Digest, at: Time)
    requires Pairable(cfg, s, u) && s.now <= at && h in s.tokens
    ensures h in u.tokens && (AwaitsSuccessor(cfg, s, s.tokens[h], at) <==> AwaitsSuccessor(cfg, u, u.tokens[h], at))
  {
    assert h in u.tokens && SameButPair(cfg, s.tokens[h], u.tokens[h], s.now);
  }

  /** A row both stores have is swept in both or in neither. */
  lemma SweepTwin(cfg: Settings, s: Store, u: Store, e: Event, h: Digest)
    requires Pairable(cfg, s, u) && e.c.After(s.now) && Harmless(s, u, e) && h in s.tokens
    ensures h in u.tokens && (h in Sweep(cfg, s, e) <==> h in Sweep(cfg, u, e))
  {
    hide Inv;
    assert h in u.tokens && SameButPair(cfg, s.tokens[h], u.tokens[h], s.now);
    match e
    case RefreshAsked(r, _, c) => SameReuse(cfg, s, u, r, c);
    case Revoked(client, token, _, _) => assert Digest(token) in s.tokens || Digest(token) !in s.tokens;
    case _ =>
  }

  lemma SameReuse(cfg: Settings, s: Store, u: Store, r: RefreshGrant, c: Clock)
    requires Pairable(cfg, s, u) && c.After(s.now)
    ensures IsReuse(cfg, s, r, c) <==> IsReuse(cfg, u, r, c)
    ensures Presentable(s, r, c.check) ==>
      RetriedRotation(cfg, s, s.tokens[Digest(r.token.value)], c.mark) ==
        RetriedRotation(cfg, u, u.tokens[Digest(r.token.value)], c.mark)
  {
    SamePresentable(cfg, s, u, r, c.check);
    if Presentable(s, r, c.check) { SameRetry(cfg, s, u, Digest(r.token.value), c.mark); }
  }

  lemma EndGrantTwin(cfg: Settings, s: Store, u: Store, a: set<Digest>, b: set<Digest>, session: Id, c: Clock)
    requires Twin(cfg, s, u) && c.After(s.now)
    requires forall h :: h in s.tokens ==> (h in a <==> h in b)
    ensures Twin(cfg, EndGrant(s, a, session, c), EndGrant(u, b, session, c))
  {
    var s', u' := EndGrant(s, a, session, c), EndGrant(u, b, session, c);
    forall h | h in s'.tokens ensures h in u'.tokens && SameButPair(cfg, s'.tokens[h], u'.tokens[h], s'.now) {
      assert h in u.tokens && SameButPair(cfg, s.tokens[h], u.tokens[h], s.now);
    }
    forall h | h in u'.tokens && h !in s'.tokens ensures Useless(u'.tokens[h], s'.now) {
      assert h in u.tokens && h !in s.tokens;
    }
  }

  lemma WaitTwin(cfg: Settings, s: Store, u: Store, inflight: map<Digest, Pending>, redeeming: set<Digest>, now: Time)
    requires Twin(cfg, s, u) && s.now <= now
    ensures Twin(cfg, s.(inflight := inflight, redeeming := redeeming, now := now),
                 u.(inflight := inflight, redeeming := redeeming, now := now))
  {
    forall h | h in s.tokens ensures h in u.tokens && SameButPair(cfg, s.tokens[h], u.tokens[h], now) {}
    forall h | h in u.tokens && h !in s.tokens ensures Useless(u.tokens[h], now) {}
  }

  lemma RefreshTwin(cfg: Settings, s: Store, u: Store, r: RefreshGrant, unseen: set<Digest>, c: Clock)
    requires Pairable(cfg, s, u) && c.After(s.now)
    ensures RefreshBegin(cfg, s, r, unseen, c).reply == RefreshBegin(cfg, u, r, unseen, c).reply
    ensures Twin(cfg, RefreshBegin(cfg, s, r, unseen, c).store, RefreshBegin(cfg, u, r, unseen, c).store)
  {
    SamePresentable(cfg, s, u, r, c.check);
    SameReuse(cfg, s, u, r, c);
    if IsReuse(cfg, s, r, c) {
      ReuseTwin(cfg, s, u, r, unseen, c);
    } else {
      OtherRefreshTwin(cfg, s, u, r, unseen, c);
    }
  }

  lemma ReuseTwin(cfg: Settings, s: Store, u: Store, r: RefreshGrant, unseen: set<Digest>, c: Clock)
    requires Pairable(cfg, s, u) && c.After(s.now) && IsReuse(cfg, s, r, c) && IsReuse(cfg, u, r, c)
    ensures RefreshBegin(cfg, s, r, unseen, c).reply == RefreshBegin(cfg, u, r, unseen, c).reply
    ensures Twin(cfg, RefreshBegin(cfg, s, r, unseen, c).store, RefreshBegin(cfg, u, r, unseen, c).store)
  {
    hide Inv;
    var e := RefreshAsked(r, unseen, c);
    var h := Digest(r.token.value);
    assert SameButPair(cfg, s.tokens[h], u.tokens[h], s.now);
    forall x | x in s.tokens ensures x in Sweep(cfg, s, e) <==> x in Sweep(cfg, u, e) { SweepTwin(cfg, s, u, e, x); }
    EndGrantTwin(cfg, s, u, Sweep(cfg, s, e), Sweep(cfg, u, e), s.tokens[h].session, c);
  }

  lemma OtherRefreshTwin(cfg: Settings, s: Store, u: Store, r: RefreshGrant, unseen: set<Digest>, c: Clock)
    requires Twin(cfg, s, u) && c.After(s.now) && !IsReuse(cfg, s, r, c) && !IsReuse(cfg, u, r, c)
    requires Presentable(s, r, c.check) <==> Presentable(u, r, c.check)
    requires Presentable(s, r, c.check) ==>
      var h := Digest(r.token.value);
      && SameButPair(cfg, s.tokens[h], u.tokens[h], s.now)
      && RetriedRotation(cfg, s, s.tokens[h], c.mark) == RetriedRotation(cfg, u, u.tokens[h], c.mark)
    ensures RefreshBegin(cfg, s, r, unseen, c).reply == RefreshBegin(cfg, u, r, unseen, c).reply
    ensures Twin(cfg, RefreshBegin(cfg, s, r, unseen, c).store, RefreshBegin(cfg, u, r, unseen, c).store)
  {
    hide Twin, StripSlashes, RefreshScope, RetriedRotation;
    SharedParts(cfg, s, u);
    var inflight := RefreshBegin(cfg, s, r, unseen, c).store.inflight;
    WaitTwin(cfg, s, u, inflight, s.redeeming, c.issue);
    assert RefreshBegin(cfg, s, r, unseen, c).store == s.(inflight := inflight, now := c.issue);
    assert RefreshBegin(cfg, u, r, unseen, c).store == u.(inflight := inflight, now := c.issue);
  }

  lemma MintTwin(cfg: Settings, s: Store, u: Store, h: Digest, draw: Draw, c: Clock)
    requires Pairable(cfg, s, u) && Enabled(cfg, s, Refreshed(h, draw, c)) && Enabled(cfg, u, Refreshed(h, draw, c))
    ensures RefreshMint(cfg, s, h, draw, c).reply == RefreshMint(cfg, u, h, draw, c).reply
    ensures Twin(cfg, RefreshMint(cfg, s, h, draw, c).store, RefreshMint(cfg, u, h, draw, c).store)
  {
    DrawIsNew(cfg, u, draw);
    PresentedIsSame(cfg, s, u, h);
    MintTwinRows(cfg, s, u, h, draw, c);
  }

  lemma PresentedIsSame(cfg: Settings, s: Store, u: Store, h: Digest)
    requires Pairable(cfg, s, u) && h in s.inflight && h in s.tokens
    ensures h in u.tokens && s.tokens[h] == u.tokens[h]
  {
    assert InflightOk(s, h);
    assert h in u.tokens && SameButPair(cfg, s.tokens[h], u.tokens[h], s.now);
  }

  lemma MintTwinRows(cfg: Settings, s: Store, u: Store, h: Digest, draw: Draw, c: Clock)
    requires Twin(cfg, s, u) && c.After(s.now)
    requires h in s.inflight && h in s.tokens && h in u.tokens && s.tokens[h] == u.tokens[h]
    requires s.tokens[h].family in s.past.lines && h in s.past.origin
    requires Digest(draw.access) !in u.tokens && Digest(draw.refresh) !in u.tokens
    ensures RefreshMint(cfg, s, h, draw, c).reply == RefreshMint(cfg, u, h, draw, c).reply
    ensures Twin(cfg, RefreshMint(cfg, s, h, draw, c).store, RefreshMint(cfg, u, h, draw, c).store)
  {
    var s', u' := RefreshMint(cfg, s, h, draw, c).store, RefreshMint(cfg, u, h, draw, c).store;
    forall x | x in s'.tokens ensures x in u'.tokens && SameButPair(cfg, s'.tokens[x], u'.tokens[x], s'.now) {
      if x in s.tokens { assert x in u.tokens && SameButPair(cfg, s.tokens[x], u.tokens[x], s.now); }
    }
    forall x | x in u'.tokens && x !in s'.tokens ensures Useless(u'.tokens[x], s'.now) {
      assert x in u.tokens && x !in s.tokens;
    }
  }

  lemma ExchangeTwin(cfg: Settings, s: Store, u: Store, r: CodeGrant, unseen: set<Digest>, c: Clock)
    requires Pairable(cfg, s, u) && Enabled(cfg, s, Exchanged(r, unseen, c))
    ensures Exchange(s, r, unseen, c).reply == Exchange(u, r, unseen, c).reply
    ensures Twin(cfg, Exchange(s, r, unseen, c).store, Exchange(u, r, unseen, c).store)
  {
    hide Inv, Twin, CodeAccepted;
    var e := Exchanged(r, unseen, c);
    SharedParts(cfg, s, u);
    if IsReplay(s, r) {
      forall h | h in s.tokens ensures h in Sweep(cfg, s, e) <==> h in Sweep(cfg, u, e) { SweepTwin(cfg, s, u, e, h); }
      EndGrantTwin(cfg, s, u, Sweep(cfg, s, e), Sweep(cfg, u, e), s.codes[Digest(r.code.value)].session, c);
    } else {
      WaitTwin(cfg, s, u, s.inflight, Exchange(s, r, unseen, c).store.redeeming, c.issue);
    }
  }

  lemma ConsumeTwin(cfg: Settings, s: Store, u: Store, k: Digest, draw: Draw, c: Clock)
    requires Pairable(cfg, s, u) && CanConsume(cfg, s, k, draw, c)
    ensures Twin(cfg, ConsumeCode(cfg, s, k, draw, c), ConsumeCode(cfg, u, k, draw, c))
  {
    var s', u' := ConsumeCode(cfg, s, k, draw, c), ConsumeCode(cfg, u, k, draw, c);
    DrawIsNew(cfg, u, draw);
    forall x | x in s'.tokens ensures x in u'.tokens && SameButPair(cfg, s'.tokens[x], u'.tokens[x], s'.now) {
      if x in s.tokens { assert x in u.tokens && SameButPair(cfg, s.tokens[x], u.tokens[x], s.now); }
    }
    forall x | x in u'.tokens && x !in s'.tokens ensures Useless(u'.tokens[x], s'.now) {
      assert x in u.tokens && x !in s.tokens;
    }
  }

  lemma RedeemTwin(cfg: Settings, s: Store, u: Store, k: Digest, draw: Draw, c: Clock)
    requires Pairable(cfg, s, u) && Enabled(cfg, s, Redeemed(k, draw, c)) && Enabled(cfg, u, Redeemed(k, draw, c))
    ensures Redeem(cfg, s, k, draw, c).reply == Redeem(cfg, u, k, draw, c).reply
    ensures Twin(cfg, Redeem(cfg, s, k, draw, c).store, Redeem(cfg, u, k, draw, c).store)
  {
    SharedParts(cfg, s, u);
    assert RedeemingOk(s, k);
    ConsumeTwin(cfg, s, u, k, draw, c);
  }

  lemma RevokeTwin(cfg: Settings, s: Store, u: Store, e: Event)
    requires Pairable(cfg, s, u) && e.Revoked? && Enabled(cfg, s, e) && Enabled(cfg, u, e) && Harmless(s, u, e)
    ensures Twin(cfg, Step(cfg, s, e, true).store, Step(cfg, u, e, false).store)
  {
    hide Inv;
    var h := Digest(e.token);
    if Recalls(s, u, e) {
      RecallKeepsTwinIff(cfg, s, u, e);
    } else if IsOwnToken(s, e.client, e.token) && s.tokens[h].kind.Refresh? {
      assert h in u.tokens && SameButPair(cfg, s.tokens[h], u.tokens[h], s.now);
      forall x | x in s.tokens ensures x in Sweep(cfg, s, e) <==> x in Sweep(cfg, u, e) { SweepTwin(cfg, s, u, e, x); }
      EndGrantTwin(cfg, s, u, Sweep(cfg, s, e), Sweep(cfg, u, e), s.tokens[h].session, e.c);
    } else {
      RevokeAccessTwin(cfg, s, u, e);
    }
  }

  /** A /revoke of a forgotten refresh token leaves the two stores alike exactly when the real one has
      nothing left for it to end. */
  lemma RecallKeepsTwinIff(cfg: Settings, s: Store, u: Store, e: Event)
    requires Pairable(cfg, s, u) && Recalls(s, u, e) && Enabled(cfg, s, e) && Enabled(cfg, u, e)
    ensures Twin(cfg, Step(cfg, s, e, true).store, Step(cfg, u, e, false).store)
      <==> NothingLeft(s, u.tokens[Digest(e.token)], e.unseen)
  {
    hide Inv;
    var row := u.tokens[Digest(e.token)];
    var swept := FamilyRows(u.tokens, row.family) - e.unseen;
    assert Step(cfg, s, e, true).store == s.(now := e.c.issue);
    assert Step(cfg, u, e, false).store == EndGrant(u, swept, row.session, e.c);
    if NothingLeft(s, row, e.unseen) {
      RecallOfNothing(cfg, s, u, swept, row, e.unseen, e.c);
    } else {
      RecallOfSomething(cfg, s, u, swept, row, e.unseen, e.c);
    }
  }

  lemma RecallOfNothing(cfg: Settings, s: Store, u: Store, swept: set<Digest>, row: Token, unseen: set<Digest>,
                        c: Clock)
    requires Twin(cfg, s, u) && c.After(s.now) && swept == FamilyRows(u.tokens, row.family) - unseen
    requires NothingLeft(s, row, unseen)
    ensures Twin(cfg, s.(now := c.issue), EndGrant(u, swept, row.session, c))
  {
    forall h | h in s.tokens ensures h !in swept {
      assert h in u.tokens && SameButPair(cfg, s.tokens[h], u.tokens[h], s.now);
      assert h in FamilyRows(s.tokens, row.family) ==> h in unseen;
    }
    EndGrantTwin(cfg, s, u, {}, swept, row.session, c);
    assert EndGrant(s, {}, row.session, c).tokens == s.tokens;
    assert EndGrant(s, {}, row.session, c) == s.(now := c.issue);
  }

  lemma RecallOfSomething(cfg: Settings, s: Store, u: Store, swept: set<Digest>, row: Token, unseen: set<Digest>,
                          c: Clock)
    requires Twin(cfg, s, u) && c.After(s.now) && swept == FamilyRows(u.tokens, row.family) - unseen
    requires !NothingLeft(s, row, unseen)
    ensures !Twin(cfg, s.(now := c.issue), EndGrant(u, swept, row.session, c))
  {
    var t := EndGrant(u, swept, row.session, c);
    if SessionActive(s, row.session) {
      assert t.sessions[row.session] != s.sessions[row.session];
    } else {
      var h :| h in FamilyRows(s.tokens, row.family) && h !in unseen;
      assert h in u.tokens && SameButPair(cfg, s.tokens[h], u.tokens[h], s.now);
      assert t.tokens[h].revokedAt != s.tokens[h].revokedAt;
    }
  }

  lemma RevokeAccessTwin(cfg: Settings, s: Store, u: Store, e: Event)
    requires Pairable(cfg, s, u) && e.Revoked? && Enabled(cfg, s, e) && Enabled(cfg, u, e) && !Recalls(s, u, e)
    requires !(IsOwnToken(s, e.client, e.token) && s.tokens[Digest(e.token)].kind.Refresh?)
    ensures Twin(cfg, Step(cfg, s, e, true).store, Step(cfg, u, e, false).store)
  {
    hide Inv;
    var h := Digest(e.token);
    assert h in s.tokens ==> h in u.tokens && SameButPair(cfg, s.tokens[h], u.tokens[h], s.now);
    WaitTwin(cfg, s, u, s.inflight, s.redeeming, e.c.issue);
    if IsOwnToken(u, e.client, e.token) {
      AccessHasNoPair(cfg, u, h);
      MarkAccessTwin(cfg, s.(now := e.c.issue), u.(now := e.c.issue), h, e.c.note);
    }
  }

  lemma AccessHasNoPair(cfg: Settings, s: Store, h: Digest)
    requires Inv(cfg, s) && h in s.tokens
    ensures s.tokens[h].kind.Access? ==> s.tokens[h].sealed.None?
  {
    assert TokenOk(s, h);
  }

  lemma MarkAccessTwin(cfg: Settings, s: Store, u: Store, h: Digest, at: Time)
    requires Twin(cfg, s, u) && h in u.tokens && u.tokens[h].kind.Access?
    requires u.tokens[h].sealed.None?
    ensures var marked := u.(tokens := u.tokens[h := u.tokens[h].(revokedAt := Some(at))]);
      Twin(cfg, if h in s.tokens then s.(tokens := s.tokens[h := s.tokens[h].(revokedAt := Some(at))]) else s, marked)
  {}

  /** A purged row is past its expiry: a refresh row is revoked no earlier than it was issued, and the
      retention is at least the life of a refresh token. */
  lemma PurgedIsUseless(cfg: Settings, s: Store, h: Digest, at: Time)
    requires cfg.Valid() && Inv(cfg, s) && cfg.refreshDays <= cfg.retentionDays && h in s.tokens && at <= s.now
    requires TokenPurged(s.tokens[h], at - cfg.RetentionSeconds())
    ensures Useless(s.tokens[h], s.now)
  {
    if s.tokens[h].kind.Refresh? { var i := Place(cfg, s, h); }
  }

  lemma PurgeTwin(cfg: Settings, s: Store, u: Store, at: Time, c: Clock)
    requires Pairable(cfg, s, u) && cfg.refreshDays <= cfg.retentionDays
    requires Enabled(cfg, s, Purged(at, c)) && Enabled(cfg, u, Purged(at, c))
    ensures Twin(cfg, Purge(cfg, s, at, true, c).store, Purge(cfg, u, at, false, c).store)
  {
    var s', u' := Purge(cfg, s, at, true, c).store, Purge(cfg, u, at, false, c).store;
    PurgeTwinTokens(cfg, s, u, at, c);
    PurgeTwinSessions(cfg, s, u, at, c);
    PurgeTwinClients(cfg, s, u, at, c);
  }

  lemma PurgeTwinTokens(cfg: Settings, s: Store, u: Store, at: Time, c: Clock)
    requires Pairable(cfg, s, u) && cfg.refreshDays <= cfg.retentionDays && at <= s.now && c.After(s.now)
    ensures var s', u' := Purge(cfg, s, at, true, c).store, Purge(cfg, u, at, false, c).store;
      && (forall h :: h in s'.tokens ==> h in u'.tokens && SameButPair(cfg, s'.tokens[h], u'.tokens[h], s'.now))
      && (forall h :: h in u'.tokens && h !in s'.tokens ==> Useless(u'.tokens[h], s'.now))
  {
    hide KeptSessions, KeptClients, KeptCodes;
    var s', u' := Purge(cfg, s, at, true, c).store, Purge(cfg, u, at, false, c).store;
    forall h | h in s'.tokens ensures h in u'.tokens && SameButPair(cfg, s'.tokens[h], u'.tokens[h], s'.now) {
      assert h in u.tokens && SameButPair(cfg, s.tokens[h], u.tokens[h], s.now);
    }
    forall h | h in u'.tokens && h !in s'.tokens ensures Useless(u'.tokens[h], s'.now) {
      if h in s.tokens {
        assert SameButPair(cfg, s.tokens[h], u.tokens[h], s.now);
        PurgedIsUseless(cfg, s, h, at);
      }
    }
  }

  /** A client without a first sign-in has no token row in either store. */
  lemma UnusedClientHasNoTokens(cfg: Settings, s: Store, client: ClientId, h: Digest)
    requires Inv(cfg, s) && client in s.clients && s.clients[client].firstAuthorizedAt.None? && h in s.tokens
    ensures s.tokens[h].client != client
  {
    assert TokenOk(s, h);
  }

  lemma SameClientsKept(cfg: Settings, s: Store, u: Store, tokens: map<Digest, Token>, tokens': map<Digest, Token>,
                        codes: map<Digest, Code>, at: Time)
    requires Inv(cfg, s) && Inv(cfg, u) && s.clients == u.clients
    requires forall h :: h in tokens ==> h in s.tokens && tokens[h].client == s.tokens[h].client
    requires forall h :: h in tokens' ==> h in u.tokens && tokens'[h].client == u.tokens[h].client
    ensures KeptClients(s.clients, tokens, codes, at) == KeptClients(u.clients, tokens', codes, at)
  {
    forall x | x in s.clients && s.clients[x].firstAuthorizedAt.None?
      ensures ClientReferred(tokens, codes, x) <==> ClientReferred(tokens', codes, x)
    {
      forall h | h in tokens ensures tokens[h].client != x { UnusedClientHasNoTokens(cfg, s, x, h); }
      forall h | h in tokens' ensures tokens'[h].client != x { UnusedClientHasNoTokens(cfg, u, x, h); }
    }
  }

  lemma PurgeTwinClients(cfg: Settings, s: Store, u: Store, at: Time, c: Clock)
    requires Pairable(cfg, s, u)
    ensures Purge(cfg, s, at, true, c).store.clients == Purge(cfg, u, at, false, c).store.clients
  {
    var s', u' := Purge(cfg, s, at, true, c).store, Purge(cfg, u, at, false, c).store;
    PurgedTokenRows(cfg, s, at, c);
    SameClientsKept(cfg, s, u, s'.tokens, u'.tokens, s'.codes, at);
  }

  lemma PurgedTokenRows(cfg: Settings, s: Store, at: Time, c: Clock)
    ensures var tokens := Purge(cfg, s, at, true, c).store.tokens;
      forall h :: h in tokens ==> h in s.tokens && tokens[h].client == s.tokens[h].client
  {}

  lemma PurgeTwinSessions(cfg: Settings, s: Store, u: Store, at: Time, c: Clock)
    requires Pairable(cfg, s, u)
    ensures var s', u' := Purge(cfg, s, at, true, c).store, Purge(cfg, u, at, false, c).store;
      && (forall i :: i in s'.sessions ==> i in u'.sessions && u'.sessions[i] == s'.sessions[i])
      && (forall i :: i in u'.sessions && i !in s'.sessions ==> u'.sessions[i].revokedAt.Some?)
  {
    hide Inv, KeptSessions, KeptTokens, KeptCodes, KeptClients, ClearPairs;
    var cutoff := at - cfg.RetentionSeconds();
    var kept, codes := KeptTokens(s.tokens, cutoff), KeptCodes(s.codes, cutoff);
    KeptTokensAre(s.tokens, cutoff);
    TwinSessionsKept(cfg, s, u, kept, codes, cutoff);
  }

  lemma KeptTokensAre(tokens: map<Digest, Token>, cutoff: Time)
    ensures forall h :: h in KeptTokens(tokens, cutoff) ==> h in tokens && KeptTokens(tokens, cutoff)[h] == tokens[h]
  {}

  lemma TwinSessionsKept(cfg: Settings, s: Store, u: Store, kept: map<Digest, Token>, codes: map<Digest, Code>,
                         cutoff: Time)
    requires Twin(cfg, s, u)
    requires forall h :: h in kept ==> h in s.tokens && kept[h] == s.tokens[h]
    ensures var a, b := KeptSessions(s.sessions, kept, codes, cutoff),
      KeptSessions(u.sessions, u.tokens, codes, cutoff);
      && (forall i :: i in a ==> i in b && b[i] == a[i])
      && (forall i :: i in b && i !in a ==> b[i].revokedAt.Some?)
  {
    forall i ensures SessionReferred(kept, codes, i) ==> SessionReferred(u.tokens, codes, i) {
      if h :| h in kept && kept[h].session == i {
        assert h in s.tokens;
        assert h in u.tokens && SameButPair(cfg, s.tokens[h], u.tokens[h], s.now);
      }
    }
  }

  lemma RegisterTwin(cfg: Settings, s: Store, u: Store, client: ClientId, c: Clock)
    requires Twin(cfg, s, u) && c.After(s.now)
    ensures Twin(cfg, Register(s, client, c).store, Register(u, client, c).store)
  {
    WaitTwin(cfg, s, u, s.inflight, s.redeeming, c.issue);
  }

  lemma LoseTwin(cfg: Settings, s: Store, u: Store, session: Id, c: Clock)
    requires Twin(cfg, s, u) && c.After(s.now)
    ensures Twin(cfg, LoseSession(s, session, c).store, LoseSession(u, session, c).store)
  {
    WaitTwin(cfg, s, u, s.inflight, s.redeeming, c.issue);
  }

  lemma StepTwin(cfg: Settings, s: Store, u: Store, e: Event)
    requires Pairable(cfg, s, u) && cfg.refreshDays <= cfg.retentionDays && Enabled(cfg, s, e) && Harmless(s, u, e)
    ensures Enabled(cfg, u, e)
    ensures Step(cfg, s, e, true).reply == Step(cfg, u, e, false).reply
    ensures Twin(cfg, Step(cfg, s, e, true).store, Step(cfg, u, e, false).store)
  {
    hide Inv, Twin;
    SameEnabled(cfg, s, u, e);
    SharedParts(cfg, s, u);
    match e
    case Registered(client, c) => RegisterTwin(cfg, s, u, client, c);
    case SignedIn(_, _, _, _, _, _, _, _, _) => SignInTwin(cfg, s, u, e);
    case Exchanged(r, unseen, c) => ExchangeTwin(cfg, s, u, r, unseen, c);
    case Redeemed(k, draw, c) => RedeemTwin(cfg, s, u, k, draw, c);
    case RefreshAsked(r, unseen, c) => RefreshTwin(cfg, s, u, r, unseen, c);
    case ContextLive(h, c) => WaitTwin(cfg, s, u, Step(cfg, s, e, true).store.inflight, s.redeeming, c.issue);
    case ContextFailed(h, down, c) => WaitTwin(cfg, s, u, s.inflight - {h}, s.redeeming, c.issue);
    case Refreshed(h, draw, c) => MintTwin(cfg, s, u, h, draw, c);
    case Revoked(_, _, _, _) => RevokeTwin(cfg, s, u, e);
    case SessionLost(session, c) => LoseTwin(cfg, s, u, session, c);
    case Purged(at, c) => PurgeTwin(cfg, s, u, at, c);
  }

  lemma SignInTwin(cfg: Settings, s: Store, u: Store, e: Event)
    requires Pairable(cfg, s, u) && e.SignedIn? && Enabled(cfg, s, e)
    ensures Step(cfg, s, e, true).reply == Step(cfg, u, e, false).reply
    ensures Twin(cfg, Step(cfg, s, e, true).store, Step(cfg, u, e, false).store)
  {
    hide Inv, Twin;
    SharedParts(cfg, s, u);
    assert [e.session, e.code][0] == e.session;
    NewSession(cfg, u, e.session);
    NewSession(cfg, s, e.session);
    SessionAdded(cfg, s, u, Step(cfg, s, e, true).store, Step(cfg, u, e, false).store, e.session);
  }

  lemma SessionAdded(cfg: Settings, s: Store, u: Store, s': Store, u': Store, session: Id)
    requires Twin(cfg, s, u) && session !in u.sessions && s.now <= s'.now
    requires s' == u'.(tokens := s.tokens, sessions := s'.sessions) && u'.tokens == u.tokens
    requires (s'.sessions == s.sessions && u'.sessions == u.sessions) ||
      (s'.sessions == s.sessions[session := Session(None)] && u'.sessions == u.sessions[session := Session(None)])
    ensures Twin(cfg, s', u')
  {
    WaitTwin(cfg, s, u, s.inflight, s.redeeming, s'.now);
    var t, v := s.(inflight := s.inflight, now := s'.now), u.(inflight := s.inflight, now := s'.now);
    assert Twin(cfg, t, v);
  }

  // ---------------------------------------------------------------- whole runs

  /** The answers of a run, and its last store, under the real cleanup or the remembering one. */
  function Answers(cfg: Settings, s: Store, events: seq<Event>, forget: bool): seq<Reply>
    decreases |events|
  {
    if events == [] || !Enabled(cfg, s, events[0]) then []
    else
      var out := Step(cfg, s, events[0], forget);
      [out.reply] + Answers(cfg, out.store, events[1..], forget)
  }

  function Final(cfg: Settings, s: Store, events: seq<Event>, forget: bool): Store
    decreases |events|
  {
    if events == [] || !Enabled(cfg, s, events[0]) then s
    else Final(cfg, Step(cfg, s, events[0], forget).store, events[1..], forget)
  }

  /** Every /revoke in the run of a refresh token the real cleanup has forgotten comes when the real
      store has nothing left for it to end. */
  predicate RecallsHarmless(cfg: Settings, s: Store, u: Store, events: seq<Event>)
    decreases |events|
  {
    events != [] ==>
      && Harmless(s, u, events[0])
      && (Enabled(cfg, s, events[0]) && Enabled(cfg, u, events[0]) ==>
            RecallsHarmless(cfg, Step(cfg, s, events[0], true).store, Step(cfg, u, events[0], false).store,
                            events[1..]))
  }

  lemma {:induction false} RunTwin(cfg: Settings, s: Store, u: Store, events: seq<Event>)
    requires Pairable(cfg, s, u) && cfg.refreshDays <= cfg.retentionDays
    requires Runs(cfg, s, events) && RecallsHarmless(cfg, s, u, events)
    ensures |Answers(cfg, s, events, true)| == |events|
    ensures Answers(cfg, s, events, true) == Answers(cfg, u, events, false)
    ensures Twin(cfg, Final(cfg, s, events, true), Final(cfg, u, events, false))
    ensures Final(cfg, s, events, true) == After(cfg, s, events)
    decreases |events|
  {
    if events != [] {
      var e := events[0];
      StepTwin(cfg, s, u, e);
      StepKeeps(cfg, s, e, true);
      StepKeeps(cfg, u, e, false);
      RunTwin(cfg, Step(cfg, s, e, true).store, Step(cfg, u, e, false).store, events[1..]);
    }
  }

  lemma TwinOfItself(cfg: Settings, s: Store)
    ensures Twin(cfg, s, s)
  {}

  /** While the retention covers the life of a refresh token, deleting old rows and clearing sealed
      pairs changes no answer of any later request, no later verification and no orphan found, in any
      run in which a /revoke of an already forgotten refresh token has nothing left to end. */
  lemma CleanupIsInvisible(cfg: Settings, s: Store, events: seq<Event>)
    requires cfg.Valid() && cfg.refreshDays <= cfg.retentionDays && Reachable(cfg, s)
    requires Runs(cfg, s, events) && RecallsHarmless(cfg, s, s, events)
    ensures |Answers(cfg, s, events, true)| == |events|
    ensures Answers(cfg, s, events, true) == Answers(cfg, s, events, false)
    ensures var t, u := Final(cfg, s, events, true), Final(cfg, s, events, false);
      && (forall token, at, okk :: t.now <= at ==>
            VerifyToken(cfg, t, t, token, at, okk) == VerifyToken(cfg, u, u, token, at, okk))
      && Orphans(t, t.now) == Orphans(u, u.now)
  {
    ReachableKeeps(cfg, s);
    TwinOfItself(cfg, s);
    RunTwin(cfg, s, s, events);
    var t, u := Final(cfg, s, events, true), Final(cfg, s, events, false);
    forall token, at, okk | t.now <= at
      ensures VerifyToken(cfg, t, t, token, at, okk) == VerifyToken(cfg, u, u, token, at, okk)
    {
      SameVerification(cfg, t, u, t, u, token, at, okk);
    }
    SameOrphans(cfg, t, u);
  }

  // ---------------------------------------------------------------- where the conditions are needed

  /** What a harmful recall means to a client: a /revoke of a forgotten refresh token ends the grant in
      the remembering store and does nothing in the real one. */
  lemma RecallTellsThemApart(cfg: Settings, s: Store, u: Store, e: Event, token: Id, at: Time)
    requires Pairable(cfg, s, u) && Enabled(cfg, s, e) && Enabled(cfg, u, e) && Recalls(s, u, e)
    requires AccessRowValid(cfg, s, Digest(token), at) && SessionActive(s, s.tokens[Digest(token)].session)
    requires s.tokens[Digest(token)].session == u.tokens[Digest(e.token)].session
    ensures var s', u' := Step(cfg, s, e, true).store, Step(cfg, u, e, false).store;
      && VerifyToken(cfg, s', s', token, at, Alive) == Some(s.tokens[Digest(token)].scope)
      && VerifyToken(cfg, u', u', token, at, Alive) == None
  {
    hide Inv;
    var h := Digest(token);
    assert h in u.tokens && SameButPair(cfg, s.tokens[h], u.tokens[h], s.now);
  }

  lemma PurgeForgets(cfg: Settings, s: Store, at: Time, c: Clock, h: Digest)
    requires h in s.tokens && TokenPurged(s.tokens[h], at - cfg.RetentionSeconds())
    ensures h !in Purge(cfg, s, at, true, c).store.tokens
  {
    hide KeptSessions, KeptCodes, KeptClients;
  }

  lemma RememberingKeeps(cfg: Settings, s: Store, at: Time, c: Clock, h: Digest)
    requires Inv(cfg, s) && h in s.tokens
    ensures var u := Purge(cfg, s, at, false, c).store;
      u.tokens == s.tokens && s.tokens[h].client in u.clients
  {
    hide KeptSessions, KeptCodes;
    PurgeKeepsReferred(cfg, s, at, false, c);
  }

  lemma SameRows(cfg: Settings, s: Store, u: Store, h: Digest, at: Time)
    requires s.tokens == u.tokens && h in s.tokens
    ensures RetriedRotation(cfg, s, s.tokens[h], at) == RetriedRotation(cfg, u, u.tokens[h], at)
  {}

  /** With a shorter retention a used token can be forgotten while it is still unexpired: its reuse is
      then an ordinary invalid token and the grant lives on. */
  lemma ForgettingHidesReuse(cfg: Settings, s: Store, at: Time, c: Clock, r: RefreshGrant, unseen: set<Digest>,
                             c2: Clock)
    requires cfg.Valid() && Inv(cfg, s) && Enabled(cfg, s, Purged(at, c)) && c2.After(c.issue)
    requires IsReuse(cfg, s, r, c2) && TokenPurged(s.tokens[Digest(r.token.value)], at - cfg.RetentionSeconds())
    ensures RefreshBegin(cfg, Purge(cfg, s, at, true, c).store, r, unseen, c2).reply != RefreshReused
    ensures RefreshBegin(cfg, Purge(cfg, s, at, false, c).store, r, unseen, c2).reply == RefreshReused
  {
    var h := Digest(r.token.value);
    PurgeForgets(cfg, s, at, c, h);
    RememberingKeeps(cfg, s, at, c, h);
    hide Purge, RetriedRotation, StripSlashes, RefreshScope;
    var t, u := Purge(cfg, s, at, true, c).store, Purge(cfg, s, at, false, c).store;
    SameRows(cfg, s, u, h, c2.mark);
  }
}
