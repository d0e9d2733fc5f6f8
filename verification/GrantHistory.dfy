/** What no event undoes: a relation between a store and any store that can follow it. */
module GrantHistory {
  import opened Common
  import opened Scopes
  import opened Grants
  import opened GrantInvariant

  /** The row `b` of a later store against the same row `a` of an earlier one. */
  predicate RowLater(cfg: Settings, a: Token, b: Token, now: Time) {
    && b == a.(consumedAt := b.consumedAt, revokedAt := b.revokedAt, replacedBy := b.replacedBy, sealed := b.sealed)
    && (a.revokedAt.Some? ==> b.revokedAt.Some?)
    && (a.consumedAt.Some? ==>
          && b.consumedAt == a.consumedAt && b.replacedBy == a.replacedBy
          && (b.sealed == a.sealed || (b.sealed.None? && b.consumedAt.value + cfg.retrySeconds < now)))
  }

  /** `t` may follow `s`: rows are never reborn, use and revocation are never undone, a sealed pair is
      forgotten only outside its retry window and a session that stopped never starts again. */
  ghost predicate Later(cfg: Settings, s: Store, t: Store) {
    && s.now <= t.now
    && s.past.drawn <= t.past.drawn
    && (forall i {:trigger t.past.grants[i]} {:trigger s.past.grants[i]} ::
          i in s.past.grants ==> i in t.past.grants && t.past.grants[i] == s.past.grants[i])
    && (forall f {:trigger t.past.lines[f]} {:trigger s.past.lines[f]} :: f in s.past.lines ==>
          f in t.past.lines && t.past.lines[f].session == s.past.lines[f].session
          && s.past.lines[f].chain <= t.past.lines[f].chain)
    && (forall i {:trigger SessionActive(t, i)} :: i in s.past.grants && SessionActive(t, i) ==> SessionActive(s, i))
    && (forall h {:trigger t.tokens[h]} {:trigger h in t.tokens} :: h in t.tokens && h.secret in s.past.drawn ==>
          h in s.tokens && RowLater(cfg, s.tokens[h], t.tokens[h], t.now))
  }

  lemma LaterTransitive(cfg: Settings, s: Store, t: Store, u: Store)
    requires Later(cfg, s, t) && Later(cfg, t, u)
    ensures Later(cfg, s, u)
  {
    forall f | f in s.past.lines
      ensures f in u.past.lines && u.past.lines[f].session == s.past.lines[f].session
      ensures s.past.lines[f].chain <= u.past.lines[f].chain
    {
      assert t.past.lines[f].chain <= u.past.lines[f].chain;
    }
  }

  /** Steps that write no row. */
  lemma WaitLater(cfg: Settings, s: Store, t: Store)
    requires t == s.(inflight := t.inflight, redeeming := t.redeeming, now := t.now) && s.now <= t.now
    ensures Later(cfg, s, t)
  {}

  lemma EndGrantLater(cfg: Settings, s: Store, hit: set<Digest>, session: Id, c: Clock)
    requires c.After(s.now)
    ensures Later(cfg, s, EndGrant(s, hit, session, c))
  {}

  lemma LoginLater(cfg: Settings, s: Store, e: Event)
    requires Inv(cfg, s) && e.SignedIn? && Enabled(cfg, s, e)
    ensures Later(cfg, s, Step(cfg, s, e, true).store)
  {
    var t := Step(cfg, s, e, true).store;
    assert [e.session, e.code][0] == e.session;
    NewSession(cfg, s, e.session);
    if e.client !in s.clients && !e.metadataDocument {
      WaitLater(cfg, s, t);
    } else {
      SignInLater(cfg, s, t, e.session);
    }
  }

  lemma SignInLater(cfg: Settings, s: Store, t: Store, session: Id)
    requires s.now <= t.now && s.past.drawn <= t.past.drawn && t.tokens == s.tokens && t.past.lines == s.past.lines
    requires session !in s.past.grants
    requires session in t.past.grants && t.past.grants == s.past.grants[session := t.past.grants[session]]
    requires session in t.sessions && t.sessions == s.sessions[session := t.sessions[session]]
    ensures Later(cfg, s, t)
  {}

  lemma StepLater(cfg: Settings, s: Store, e: Event)
    requires cfg.Valid() && Inv(cfg, s) && Enabled(cfg, s, e)
    ensures Later(cfg, s, Step(cfg, s, e, true).store)
  {
    var t := Step(cfg, s, e, true).store;
    match e
    case Registered(client, c) => RegisterLater(cfg, s, client, c);
    case SignedIn(_, _, _, _, _, _, _, _, _) => LoginLater(cfg, s, e);
    case Exchanged(r, unseen, c) => ExchangeLater(cfg, s, r, unseen, c);
    case Redeemed(k, draw, c) =>
      assert RedeemingOk(s, k);
      ConsumeCodeLater(cfg, s, k, draw, c);
    case RefreshAsked(r, unseen, c) =>
      if IsReuse(cfg, s, r, c) {
        EndGrantLater(cfg, s, Sweep(cfg, s, e), s.tokens[Digest(r.token.value)].session, c);
      } else {
        WaitLater(cfg, s, t);
      }
    case ContextLive(h, c) => WaitLater(cfg, s, t);
    case ContextFailed(h, down, c) => WaitLater(cfg, s, t);
    case Refreshed(h, draw, c) => MintLater(cfg, s, h, draw, c);
    case Revoked(client, token, unseen, c) => RevokeLater(cfg, s, e);
    case SessionLost(session, c) => LoseSessionLater(cfg, s, session, c);
    case Purged(at, c) => PurgeLater(cfg, s, at, c);
  }

  lemma RegisterLater(cfg: Settings, s: Store, client: ClientId, c: Clock)
    requires c.After(s.now)
    ensures Later(cfg, s, Register(s, client, c).store)
  {}

  lemma LoseSessionLater(cfg: Settings, s: Store, session: Id, c: Clock)
    requires c.After(s.now)
    ensures Later(cfg, s, LoseSession(s, session, c).store)
  {}

  lemma RevokeAccessLater(cfg: Settings, s: Store, h: Digest, c: Clock)
    requires c.After(s.now) && h in s.tokens
    ensures Later(cfg, s, s.(tokens := s.tokens[h := s.tokens[h].(revokedAt := Some(c.note))], now := c.issue))
  {}

  lemma RevokeLater(cfg: Settings, s: Store, e: Event)
    requires Inv(cfg, s) && e.Revoked? && Enabled(cfg, s, e)
    ensures Later(cfg, s, Step(cfg, s, e, true).store)
  {
    if !IsOwnToken(s, e.client, e.token) {
      WaitLater(cfg, s, Step(cfg, s, e, true).store);
    } else if s.tokens[Digest(e.token)].kind.Refresh? {
      EndGrantLater(cfg, s, Sweep(cfg, s, e), s.tokens[Digest(e.token)].session, e.c);
    } else {
      RevokeAccessLater(cfg, s, Digest(e.token), e.c);
    }
  }

  lemma ConsumeCodeLater(cfg: Settings, s: Store, k: Digest, draw: Draw, c: Clock)
    requires CanConsume(cfg, s, k, draw, c)
    ensures Later(cfg, s, ConsumeCode(cfg, s, k, draw, c))
  {
    var ids := NewDrawIds(draw);
    assert ids[0] == draw.access && ids[1] == draw.refresh && ids[2] == draw.family;
    DrawIsNew(cfg, s, draw);
  }

  lemma ExchangeLater(cfg: Settings, s: Store, r: CodeGrant, unseen: set<Digest>, c: Clock)
    requires Enabled(cfg, s, Exchanged(r, unseen, c))
    ensures Later(cfg, s, Exchange(s, r, unseen, c).store)
  {
    hide CodeAccepted;
    if IsReplay(s, r) {
      EndGrantLater(cfg, s, Sweep(cfg, s, Exchanged(r, unseen, c)), s.codes[Digest(r.code.value)].session, c);
    } else {
      WaitLater(cfg, s, Exchange(s, r, unseen, c).store);
    }
  }

  lemma MintLater(cfg: Settings, s: Store, h: Digest, draw: Draw, c: Clock)
    requires cfg.Valid() && Inv(cfg, s) && Enabled(cfg, s, Refreshed(h, draw, c))
    ensures Later(cfg, s, RefreshMint(cfg, s, h, draw, c).store)
  {
    var ids := NewDrawIds(draw);
    assert ids[0] == draw.access && ids[1] == draw.refresh;
    DrawIsNew(cfg, s, draw);
    assert InflightOk(s, h);
  }

  lemma PurgeLater(cfg: Settings, s: Store, at: Time, c: Clock)
    requires Inv(cfg, s) && Enabled(cfg, s, Purged(at, c))
    ensures Later(cfg, s, Purge(cfg, s, at, true, c).store)
  {
    var t := Purge(cfg, s, at, true, c).store;
    forall h | h in t.tokens ensures h in s.tokens && RowLater(cfg, s.tokens[h], t.tokens[h], t.now) {}
  }

  lemma {:induction false} RunLater(cfg: Settings, s: Store, events: seq<Event>)
    requires cfg.Valid() && Inv(cfg, s) && Runs(cfg, s, events)
    ensures Inv(cfg, After(cfg, s, events)) && Later(cfg, s, After(cfg, s, events))
    decreases |events|
  {
    if events != [] {
      var t := Step(cfg, s, events[0], true).store;
      StepKeeps(cfg, s, events[0], true);
      StepLater(cfg, s, events[0]);
      RunLater(cfg, t, events[1..]);
      LaterTransitive(cfg, s, t, After(cfg, t, events[1..]));
    } else {
      forall h | h in s.tokens && h.secret in s.past.drawn ensures RowLater(cfg, s.tokens[h], s.tokens[h], s.now) {}
    }
  }

  /** The event issues tokens for the session: its code was accepted or its refresh passed OKK. */
  predicate Issues(s: Store, e: Event, session: Id) {
    || (e.Redeemed? && e.k in s.redeeming && e.k in s.codes && s.codes[e.k].session == session)
    || (e.Refreshed? && e.h in s.inflight && s.inflight[e.h].live
        && e.h in s.tokens && s.tokens[e.h].session == session)
  }

  /** A token row that an event adds belongs to the session the event issues tokens for. */
  lemma NewTokenFrom(cfg: Settings, s: Store, e: Event, h: Digest)
    requires Enabled(cfg, s, e) && h in Step(cfg, s, e, true).store.tokens && h !in s.tokens
    ensures Issues(s, e, Step(cfg, s, e, true).store.tokens[h].session)
  {
    hide Sweep, Unlocked, RetriedRotation, StripSlashes, RefreshScope, CodeAccepted;
  }

  /** What an event can do to the codes. */
  lemma CodesAfter(cfg: Settings, s: Store, e: Event, k: Digest)
    requires Enabled(cfg, s, e) && k in Step(cfg, s, e, true).store.codes
    ensures var row := Step(cfg, s, e, true).store.codes[k];
      || (k in s.codes &&
          (row == s.codes[k] || (row == s.codes[k].(consumedAt := row.consumedAt) && row.consumedAt.Some?)))
      || (e.SignedIn? && row.session == e.session)
  {}
}
