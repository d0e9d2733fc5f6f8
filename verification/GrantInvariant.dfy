/** What every reachable grant store satisfies, and that every event keeps it. */
module GrantInvariant {
  import opened Common
  import opened Scopes
  import opened Grants

  // ---------------------------------------------------------------- the invariant

  ghost predicate TokenOk(s: Store, h: Digest)
    requires h in s.tokens
  {
    var t := s.tokens[h];
    && h.secret in s.past.drawn
    && t.session in s.sessions && t.session in s.past.grants
    && t.client in s.clients && s.clients[t.client].firstAuthorizedAt.Some?
    && t.client == s.past.grants[t.session].client
    && t.resource == s.past.grants[t.session].resource
    && t.scope <= s.past.grants[t.session].scope
    && t.family in s.past.lines && s.past.lines[t.family].session == t.session
    && h in s.past.origin && s.past.origin[h] == s.past.grants[t.session].code
    && (t.revokedAt.Some? ==> t.revokedAt.value <= s.now)
    && (t.consumedAt.Some? ==> t.consumedAt.value <= s.now)
    && (t.kind.Access? ==> t.consumedAt.None? && t.replacedBy.None? && t.sealed.None?)
    && (t.kind.Refresh? ==> h in s.past.lines[t.family].chain)
  }

  /** The successor `n` of a used row `t`: same or smaller scope, issued no earlier than `t` was revoked. */
  ghost predicate Succeeds(cfg: Settings, t: Token, n: Token) {
    && n.scope <= t.scope
    && t.expiresAt <= n.expiresAt
    && t.revokedAt.Some? && t.revokedAt.value + cfg.RefreshSeconds() <= n.expiresAt
  }

  /** Place `i` of a family's chain, if its row is still stored. */
  ghost predicate LinkOk(cfg: Settings, s: Store, f: Id, i: nat)
    requires f in s.past.lines && i < |s.past.lines[f].chain|
  {
    var chain := s.past.lines[f].chain;
    chain[i] in s.tokens ==>
      var t := s.tokens[chain[i]];
      && t.kind.Refresh? && t.family == f
      && t.expiresAt <= s.now + cfg.RefreshSeconds()
      && (t.revokedAt.Some? ==> t.expiresAt <= t.revokedAt.value + cfg.RefreshSeconds())
      && (if i + 1 == |chain| then
            t.replacedBy.None? && t.consumedAt.None? && t.sealed.None?
          else
            && t.replacedBy == Some(chain[i + 1])
            && t.consumedAt.Some? && t.revokedAt.Some? && t.consumedAt.value <= t.revokedAt.value
            && (t.sealed.Some? ==> Digest(t.sealed.value.refresh) == chain[i + 1])
            && chain[i + 1] in s.tokens && Succeeds(cfg, t, s.tokens[chain[i + 1]]))
  }

  ghost predicate LineOk(cfg: Settings, s: Store, f: Id)
    requires f in s.past.lines
  {
    var chain := s.past.lines[f].chain;
    && f in s.past.drawn
    && s.past.lines[f].session in s.past.grants
    && s.past.grants[s.past.lines[f].session].client in s.clients
    && s.clients[s.past.grants[s.past.lines[f].session].client].firstAuthorizedAt.Some?
    && chain != []
    && (forall i :: 0 <= i < |chain| ==> chain[i].secret in s.past.drawn)
    && (forall i, j :: 0 <= i < j < |chain| ==> chain[i] != chain[j])
    && (forall i {:trigger LinkOk(cfg, s, f, i)} :: 0 <= i < |chain| ==> LinkOk(cfg, s, f, i))
  }

  ghost predicate HasLine(s: Store, session: Id) {
    exists f :: f in s.past.lines && s.past.lines[f].session == session
  }

  ghost predicate CodeOk(s: Store, k: Digest)
    requires k in s.codes
  {
    var row := s.codes[k];
    && k.secret in s.past.drawn
    && row.session in s.sessions && row.session in s.past.grants
    && row.client in s.clients
    && s.past.grants[row.session] == Grant(row.client, s.past.grants[row.session].requested, row.scope, row.resource, k)
    && (row.consumedAt.Some? <==> HasLine(s, row.session))
  }

  ghost predicate GrantOk(s: Store, i: Id)
    requires i in s.past.grants
  {
    var g := s.past.grants[i];
    && i in s.past.drawn && g.code.secret in s.past.drawn
    && g.scope <= g.requested <= ALLOWED
  }

  ghost predicate InflightOk(s: Store, h: Digest)
    requires h in s.inflight
  {
    && IsRefreshRow(s, h)
    && s.tokens[h].consumedAt.None? && s.tokens[h].revokedAt.None?
    && s.inflight[h].scope <= s.tokens[h].scope
  }

  /** A code whose row an exchange holds is stored and unused. */
  ghost predicate RedeemingOk(s: Store, k: Digest) {
    k in s.codes && s.codes[k].consumedAt.None?
  }

  ghost predicate SessionOk(s: Store, i: Id)
    requires i in s.sessions
  {
    i in s.past.grants && (s.sessions[i].revokedAt.Some? ==> s.sessions[i].revokedAt.value <= s.now)
  }

  /** The part of the invariant about codes, grants, sessions and row locks. */
  ghost predicate AroundTokens(s: Store) {
    && (forall k {:trigger CodeOk(s, k)} :: k in s.codes ==> CodeOk(s, k))
    && (forall i {:trigger GrantOk(s, i)} :: i in s.past.grants ==> GrantOk(s, i))
    && (forall i, j :: i in s.past.grants && j in s.past.grants ==>
          s.past.grants[i].code == s.past.grants[j].code ==> i == j)
    && (forall i {:trigger SessionOk(s, i)} :: i in s.sessions ==> SessionOk(s, i))
    && (forall h {:trigger InflightOk(s, h)} :: h in s.inflight ==> InflightOk(s, h))
    && (forall k {:trigger RedeemingOk(s, k)} :: k in s.redeeming ==> RedeemingOk(s, k))
  }

  ghost predicate Inv(cfg: Settings, s: Store) {
    && (forall h {:trigger TokenOk(s, h)} :: h in s.tokens ==> TokenOk(s, h))
    && (forall f {:trigger LineOk(cfg, s, f)} :: f in s.past.lines ==> LineOk(cfg, s, f))
    && (forall f, g {:trigger s.past.lines[f], s.past.lines[g]} ::
          f in s.past.lines && g in s.past.lines ==>
          s.past.lines[f].session == s.past.lines[g].session ==> f == g)
    && AroundTokens(s)
  }

  // ---------------------------------------------------------------- places in a chain

  /** The place of a stored refresh row in the chain of its family. */
  lemma Place(cfg: Settings, s: Store, h: Digest) returns (i: nat)
    requires Inv(cfg, s) && IsRefreshRow(s, h)
    ensures s.tokens[h].family in s.past.lines
    ensures i < |s.past.lines[s.tokens[h].family].chain| && s.past.lines[s.tokens[h].family].chain[i] == h
    ensures LinkOk(cfg, s, s.tokens[h].family, i)
  {
    assert TokenOk(s, h);
    var f := s.tokens[h].family;
    assert LineOk(cfg, s, f);
    i :| 0 <= i < |s.past.lines[f].chain| && s.past.lines[f].chain[i] == h;
  }

  // ---------------------------------------------------------------- preservation, operation by operation

  /** A row lock of `t` is as old as `s` or is taken on an unused row. */
  ghost predicate MayLock(s: Store, t: Store, h: Digest)
    requires h in t.inflight
  {
    || (h in s.inflight && t.inflight[h].scope == s.inflight[h].scope)
    || (IsRefreshRow(s, h) && s.tokens[h].consumedAt.None? && s.tokens[h].revokedAt.None?
        && t.inflight[h].scope <= s.tokens[h].scope)
  }

  /** Releasing a lock, taking one and the passing of time keep the invariant. */
  lemma WaitKeeps(cfg: Settings, s: Store, t: Store)
    requires Inv(cfg, s) && t == s.(inflight := t.inflight, redeeming := t.redeeming, now := t.now) && s.now <= t.now
    requires forall h :: h in t.inflight ==> MayLock(s, t, h)
    requires forall k :: k in t.redeeming ==> k in s.redeeming || RedeemingOk(s, k)
    ensures Inv(cfg, t)
  {
    forall h | h in t.tokens ensures TokenOk(t, h) { assert TokenOk(s, h); }
    forall f | f in t.past.lines ensures LineOk(cfg, t, f) {
      assert LineOk(cfg, s, f);
      forall i | 0 <= i < |t.past.lines[f].chain| ensures LinkOk(cfg, t, f, i) { assert LinkOk(cfg, s, f, i); }
    }
    WaitAround(cfg, s, t);
  }

  lemma WaitAround(cfg: Settings, s: Store, t: Store)
    requires Inv(cfg, s) && t == s.(inflight := t.inflight, redeeming := t.redeeming, now := t.now) && s.now <= t.now
    requires forall h :: h in t.inflight ==> MayLock(s, t, h)
    requires forall k :: k in t.redeeming ==> k in s.redeeming || RedeemingOk(s, k)
    ensures AroundTokens(t)
  {
    forall k | k in t.codes ensures CodeOk(t, k) { assert CodeOk(s, k); SameLines(s, t, t.codes[k].session); }
    forall i | i in t.past.grants ensures GrantOk(t, i) { assert GrantOk(s, i); }
    forall i | i in t.sessions ensures SessionOk(t, i) { assert SessionOk(s, i); }
    forall h | h in t.inflight ensures InflightOk(t, h) {
      if h in s.inflight { assert InflightOk(s, h); }
      assert MayLock(s, t, h);
    }
    forall k | k in t.redeeming ensures RedeemingOk(t, k) { if k in s.redeeming { assert RedeemingOk(s, k); } }
  }

  lemma SameLines(s: Store, t: Store, session: Id)
    requires s.past.lines == t.past.lines
    ensures HasLine(s, session) <==> HasLine(t, session)
  {}

  lemma EndGrantLinks(cfg: Settings, s: Store, hit: set<Digest>, session: Id, c: Clock, f: Id, i: nat)
    requires Inv(cfg, s) && c.After(s.now) && f in s.past.lines && i < |s.past.lines[f].chain|
    requires forall h :: h in hit ==> h in s.tokens && s.tokens[h].revokedAt.None?
    ensures LinkOk(cfg, EndGrant(s, hit, session, c), f, i)
  {
    assert LineOk(cfg, s, f);
    assert LinkOk(cfg, s, f, i);
    if i + 1 < |s.past.lines[f].chain| { assert LinkOk(cfg, s, f, i + 1); }
  }

  lemma EndGrantAround(cfg: Settings, s: Store, hit: set<Digest>, session: Id, c: Clock)
    requires Inv(cfg, s) && c.After(s.now) && hit !! s.inflight.Keys
    ensures AroundTokens(EndGrant(s, hit, session, c))
  {
    var t := EndGrant(s, hit, session, c);
    forall k | k in t.codes ensures CodeOk(t, k) { assert CodeOk(s, k); SameLines(s, t, t.codes[k].session); }
    forall i | i in t.past.grants ensures GrantOk(t, i) { assert GrantOk(s, i); }
    forall i | i in t.sessions ensures SessionOk(t, i) { assert SessionOk(s, i); }
    forall h | h in t.inflight ensures InflightOk(t, h) { assert InflightOk(s, h); }
    forall k | k in t.redeeming ensures RedeemingOk(t, k) { assert RedeemingOk(s, k); }
  }

  lemma EndGrantKeeps(cfg: Settings, s: Store, hit: set<Digest>, session: Id, c: Clock)
    requires Inv(cfg, s) && c.After(s.now) && hit !! s.inflight.Keys
    requires forall h :: h in hit ==> h in s.tokens && s.tokens[h].revokedAt.None?
    ensures Inv(cfg, EndGrant(s, hit, session, c))
  {
    var t := EndGrant(s, hit, session, c);
    forall h | h in t.tokens ensures TokenOk(t, h) { assert TokenOk(s, h); }
    forall f | f in t.past.lines ensures LineOk(cfg, t, f) {
      assert LineOk(cfg, s, f);
      forall i | 0 <= i < |t.past.lines[f].chain|
        ensures LinkOk(cfg, t, f, i)
      {
        EndGrantLinks(cfg, s, hit, session, c, f, i);
      }
    }
    EndGrantAround(cfg, s, hit, session, c);
  }

  lemma RevokeAccessAround(cfg: Settings, s: Store, h: Digest, c: Clock)
    requires Inv(cfg, s) && c.After(s.now) && h in s.tokens && s.tokens[h].kind.Access?
    ensures AroundTokens(s.(tokens := s.tokens[h := s.tokens[h].(revokedAt := Some(c.note))], now := c.issue))
  {
    var t := s.(tokens := s.tokens[h := s.tokens[h].(revokedAt := Some(c.note))], now := c.issue);
    forall k | k in t.codes ensures CodeOk(t, k) { assert CodeOk(s, k); SameLines(s, t, t.codes[k].session); }
    forall i | i in t.past.grants ensures GrantOk(t, i) { assert GrantOk(s, i); }
    forall i | i in t.sessions ensures SessionOk(t, i) { assert SessionOk(s, i); }
    forall x | x in t.inflight ensures InflightOk(t, x) { assert InflightOk(s, x); }
    forall k | k in t.redeeming ensures RedeemingOk(t, k) { assert RedeemingOk(s, k); }
  }

  lemma RevokeAccessKeeps(cfg: Settings, s: Store, h: Digest, c: Clock)
    requires Inv(cfg, s) && c.After(s.now) && h in s.tokens && s.tokens[h].kind.Access?
    ensures Inv(cfg, s.(tokens := s.tokens[h := s.tokens[h].(revokedAt := Some(c.note))], now := c.issue))
  {
    var t := s.(tokens := s.tokens[h := s.tokens[h].(revokedAt := Some(c.note))], now := c.issue);
    forall x | x in t.tokens ensures TokenOk(t, x) { assert TokenOk(s, x); }
    forall f | f in t.past.lines ensures LineOk(cfg, t, f) {
      assert LineOk(cfg, s, f);
      forall i | 0 <= i < |t.past.lines[f].chain| ensures LinkOk(cfg, t, f, i) {
        assert LinkOk(cfg, s, f, i);
        if i + 1 < |t.past.lines[f].chain| { assert LinkOk(cfg, s, f, i + 1); }
      }
    }
    RevokeAccessAround(cfg, s, h, c);
  }

  /** An id not drawn before names no session, grant or line. */
  lemma NewSession(cfg: Settings, s: Store, id: Id)
    requires Inv(cfg, s) && id !in s.past.drawn
    ensures id !in s.past.grants && id !in s.sessions && id !in s.past.lines && !HasLine(s, id)
  {
    forall i | i in s.past.grants ensures i != id { assert GrantOk(s, i); }
    forall i | i in s.sessions ensures i != id { assert SessionOk(s, i); }
    forall f | f in s.past.lines ensures f != id && s.past.lines[f].session != id { assert LineOk(cfg, s, f); }
  }

  /** A code not drawn before is no stored code. */
  lemma NewCode(cfg: Settings, s: Store, code: Id)
    requires Inv(cfg, s) && code !in s.past.drawn
    ensures Digest(code) !in s.codes && Digest(code) !in s.redeeming
  {
    forall k | k in s.codes ensures k != Digest(code) { assert CodeOk(s, k); }
    forall k | k in s.redeeming ensures k in s.codes { assert RedeemingOk(s, k); }
  }

  lemma LoginAround(cfg: Settings, s: Store, client: ClientId, metadataDocument: bool, requested: set<Word>,
                    form: Consent, redirectUri: string, challenge: Challenge, session: Id, code: Id, c: Clock)
    requires Inv(cfg, s) && c.After(s.now) && Fresh(s, [session, code]) && requested <= ALLOWED
    requires client in s.clients || metadataDocument
    ensures AroundTokens(Login(cfg, s, client, metadataDocument, requested, form,
                              redirectUri, challenge, session, code, c).store)
  {
    var t := Login(cfg, s, client, metadataDocument, requested, form, redirectUri, challenge, session, code, c).store;
    assert [session, code][0] == session && [session, code][1] == code;
    NewSession(cfg, s, session);
    NewCode(cfg, s, code);
    forall k | k in t.codes ensures CodeOk(t, k) {
      SameLines(s, t, t.codes[k].session);
      if k != Digest(code) {
        assert CodeOk(s, k);
        assert GrantOk(s, s.codes[k].session);
      }
    }
    forall i | i in t.past.grants ensures GrantOk(t, i) { if i != session { assert GrantOk(s, i); } }
    forall i, j | i in t.past.grants && j in t.past.grants && t.past.grants[i].code == t.past.grants[j].code
      ensures i == j
    {
      if i != session { assert GrantOk(s, i); }
      if j != session { assert GrantOk(s, j); }
    }
    forall i | i in t.sessions ensures SessionOk(t, i) { if i != session { assert SessionOk(s, i); } }
    forall h | h in t.inflight ensures InflightOk(t, h) { assert InflightOk(s, h); }
    forall k | k in t.redeeming ensures RedeemingOk(t, k) { assert RedeemingOk(s, k); }
  }

  lemma LoginKeeps(cfg: Settings, s: Store, client: ClientId, metadataDocument: bool, requested: set<Word>,
                   form: Consent, redirectUri: string, challenge: Challenge, session: Id, code: Id, c: Clock)
    requires Inv(cfg, s) && c.After(s.now) && Fresh(s, [session, code]) && requested <= ALLOWED
    ensures Inv(cfg, Login(cfg, s, client, metadataDocument, requested, form,
                           redirectUri, challenge, session, code, c).store)
  {
    if client !in s.clients && !metadataDocument {
      WaitKeeps(cfg, s, s.(now := c.issue));
      return;
    }
    var t := Login(cfg, s, client, metadataDocument, requested, form, redirectUri, challenge, session, code, c).store;
    assert [session, code][0] == session && [session, code][1] == code;
    NewSession(cfg, s, session);
    forall h | h in t.tokens ensures TokenOk(t, h) { assert TokenOk(s, h); assert GrantOk(s, s.tokens[h].session); }
    forall f | f in t.past.lines ensures LineOk(cfg, t, f) {
      assert LineOk(cfg, s, f);
      forall i | 0 <= i < |t.past.lines[f].chain| ensures LinkOk(cfg, t, f, i) { assert LinkOk(cfg, s, f, i); }
    }
    LoginAround(cfg, s, client, metadataDocument, requested, form, redirectUri, challenge, session, code, c);
  }

  /** No stored row, chain or code has the digest of a value not drawn before. */
  lemma NewDigest(cfg: Settings, s: Store, id: Id)
    requires Inv(cfg, s) && id !in s.past.drawn
    ensures Digest(id) !in s.tokens && Digest(id) !in s.inflight
    ensures forall f, i :: f in s.past.lines && 0 <= i < |s.past.lines[f].chain| ==>
      s.past.lines[f].chain[i] != Digest(id)
  {
    forall h | h in s.tokens ensures h != Digest(id) { assert TokenOk(s, h); }
    forall h | h in s.inflight ensures h != Digest(id) { assert InflightOk(s, h); }
    forall f, i | f in s.past.lines && 0 <= i < |s.past.lines[f].chain| ensures s.past.lines[f].chain[i] != Digest(id) {
      assert LineOk(cfg, s, f);
    }
  }

  ghost predicate CanConsume(cfg: Settings, s: Store, k: Digest, draw: Draw, c: Clock) {
    && cfg.Valid() && Inv(cfg, s) && c.After(s.now) && Fresh(s, NewDrawIds(draw))
    && k in s.codes && s.codes[k].client in s.clients && s.codes[k].consumedAt.None?
  }

  lemma DrawIsNew(cfg: Settings, s: Store, draw: Draw)
    requires Inv(cfg, s) && Fresh(s, NewDrawIds(draw))
    ensures Digest(draw.access) !in s.tokens && Digest(draw.refresh) !in s.tokens && draw.access != draw.refresh
    ensures draw.family !in s.past.lines && !HasLine(s, draw.family)
    ensures forall f, i :: f in s.past.lines && 0 <= i < |s.past.lines[f].chain| ==>
      s.past.lines[f].chain[i] != Digest(draw.access) && s.past.lines[f].chain[i] != Digest(draw.refresh)
  {
    var ids := NewDrawIds(draw);
    assert ids[0] == draw.access && ids[1] == draw.refresh && ids[2] == draw.family;
    NewDigest(cfg, s, draw.access);
    NewDigest(cfg, s, draw.refresh);
    NewSession(cfg, s, draw.family);
  }

  lemma ConsumeCodeTokens(cfg: Settings, s: Store, k: Digest, draw: Draw, c: Clock, h: Digest)
    requires CanConsume(cfg, s, k, draw, c) && h in ConsumeCode(cfg, s, k, draw, c).tokens
    ensures TokenOk(ConsumeCode(cfg, s, k, draw, c), h)
  {
    DrawIsNew(cfg, s, draw);
    assert CodeOk(s, k);
    if h in s.tokens { assert TokenOk(s, h); }
  }

  lemma ConsumeCodeLines(cfg: Settings, s: Store, k: Digest, draw: Draw, c: Clock, f: Id)
    requires CanConsume(cfg, s, k, draw, c) && f in ConsumeCode(cfg, s, k, draw, c).past.lines
    ensures LineOk(cfg, ConsumeCode(cfg, s, k, draw, c), f)
  {
    var t := ConsumeCode(cfg, s, k, draw, c);
    DrawIsNew(cfg, s, draw);
    assert CodeOk(s, k);
    if f != draw.family {
      assert LineOk(cfg, s, f);
      forall i | 0 <= i < |t.past.lines[f].chain| ensures LinkOk(cfg, t, f, i) { assert LinkOk(cfg, s, f, i); }
    } else {
      assert LinkOk(cfg, t, f, 0);
    }
  }

  lemma ConsumeCodeCodes(cfg: Settings, s: Store, k: Digest, draw: Draw, c: Clock, x: Digest)
    requires CanConsume(cfg, s, k, draw, c) && x in s.codes
    ensures CodeOk(ConsumeCode(cfg, s, k, draw, c), x)
  {
    var t := ConsumeCode(cfg, s, k, draw, c);
    DrawIsNew(cfg, s, draw);
    assert CodeOk(s, k);
    assert CodeOk(s, x);
    LineAdded(s, t, draw.family, s.codes[x].session);
  }

  lemma ConsumeCodeAround(cfg: Settings, s: Store, k: Digest, draw: Draw, c: Clock)
    requires CanConsume(cfg, s, k, draw, c)
    ensures AroundTokens(ConsumeCode(cfg, s, k, draw, c))
  {
    var t := ConsumeCode(cfg, s, k, draw, c);
    DrawIsNew(cfg, s, draw);
    forall x | x in t.codes ensures CodeOk(t, x) { ConsumeCodeCodes(cfg, s, k, draw, c, x); }
    forall i | i in t.past.grants ensures GrantOk(t, i) { assert GrantOk(s, i); }
    forall i | i in t.sessions ensures SessionOk(t, i) { assert SessionOk(s, i); }
    forall h | h in t.inflight ensures InflightOk(t, h) { assert InflightOk(s, h); }
    forall k | k in t.redeeming ensures RedeemingOk(t, k) { assert RedeemingOk(s, k); }
  }

  lemma ConsumeCodeKeeps(cfg: Settings, s: Store, k: Digest, draw: Draw, c: Clock)
    requires CanConsume(cfg, s, k, draw, c)
    ensures Inv(cfg, ConsumeCode(cfg, s, k, draw, c))
  {
    var t := ConsumeCode(cfg, s, k, draw, c);
    DrawIsNew(cfg, s, draw);
    assert CodeOk(s, k);
    forall h | h in t.tokens ensures TokenOk(t, h) { ConsumeCodeTokens(cfg, s, k, draw, c, h); }
    forall f | f in t.past.lines ensures LineOk(cfg, t, f) { ConsumeCodeLines(cfg, s, k, draw, c, f); }
    ConsumeCodeAround(cfg, s, k, draw, c);
  }

  lemma LineAdded(s: Store, t: Store, f: Id, session: Id)
    requires f !in s.past.lines && f in t.past.lines && t.past.lines == s.past.lines[f := t.past.lines[f]]
    ensures HasLine(t, session) <==> (HasLine(s, session) || session == t.past.lines[f].session)
  {
    if HasLine(s, session) {
      var g :| g in s.past.lines && s.past.lines[g].session == session;
      assert g in t.past.lines && t.past.lines[g].session == session;
    }
  }

  ghost predicate CanMint(cfg: Settings, s: Store, h: Digest, draw: Draw, c: Clock) {
    && cfg.Valid() && Inv(cfg, s) && c.After(s.now) && Fresh(s, NewDrawIds(draw))
    && h in s.inflight && h in s.tokens && s.tokens[h].family in s.past.lines && h in s.past.origin
  }

  lemma MintTokens(cfg: Settings, s: Store, h: Digest, draw: Draw, c: Clock, x: Digest)
    requires CanMint(cfg, s, h, draw, c) && x in RefreshMint(cfg, s, h, draw, c).store.tokens
    ensures TokenOk(RefreshMint(cfg, s, h, draw, c).store, x)
  {
    DrawIsNew(cfg, s, draw);
    assert InflightOk(s, h);
    assert TokenOk(s, h);
    if x in s.tokens { assert TokenOk(s, x); }
  }

  /** A link both of whose rows are untouched. */
  lemma SameLink(cfg: Settings, s: Store, t: Store, f: Id, i: nat)
    requires f in s.past.lines && i < |s.past.lines[f].chain| && LinkOk(cfg, s, f, i) && s.now <= t.now
    requires f in t.past.lines && |s.past.lines[f].chain| <= |t.past.lines[f].chain|
    requires forall j :: i <= j <= i + 1 && j < |s.past.lines[f].chain| ==>
      && t.past.lines[f].chain[j] == s.past.lines[f].chain[j]
      && (s.past.lines[f].chain[j] in s.tokens <==> s.past.lines[f].chain[j] in t.tokens)
      && (s.past.lines[f].chain[j] in s.tokens ==>
            t.tokens[s.past.lines[f].chain[j]] == s.tokens[s.past.lines[f].chain[j]])
    requires i + 1 < |s.past.lines[f].chain| || |s.past.lines[f].chain| == |t.past.lines[f].chain|
    ensures LinkOk(cfg, t, f, i)
  {
    var chain := s.past.lines[f].chain;
    assert t.past.lines[f].chain[i] == chain[i];
    if i + 1 < |chain| { assert t.past.lines[f].chain[i + 1] == chain[i + 1]; }
  }

  /** The presented row of a refresh is the last of its chain. */
  lemma PresentedIsLast(cfg: Settings, s: Store, h: Digest)
    requires Inv(cfg, s) && h in s.inflight && h in s.tokens
    ensures s.tokens[h].family in s.past.lines
    ensures var chain := s.past.lines[s.tokens[h].family].chain; chain != [] && chain[|chain| - 1] == h
    ensures forall f, j :: f in s.past.lines && 0 <= j < |s.past.lines[f].chain| && s.past.lines[f].chain[j] == h ==>
      f == s.tokens[h].family && j == |s.past.lines[f].chain| - 1
  {
    assert InflightOk(s, h);
    var at := Place(cfg, s, h);
    assert LineOk(cfg, s, s.tokens[h].family);
    forall f, j | f in s.past.lines && 0 <= j < |s.past.lines[f].chain| && s.past.lines[f].chain[j] == h
      ensures f == s.tokens[h].family
    {
      assert LineOk(cfg, s, f) && LinkOk(cfg, s, f, j);
    }
  }

  /** The links of the chains before the mint. */
  lemma MintOldLinks(cfg: Settings, s: Store, h: Digest, draw: Draw, c: Clock, f: Id, i: nat)
    requires CanMint(cfg, s, h, draw, c) && f in s.past.lines && i < |s.past.lines[f].chain|
    ensures LinkOk(cfg, RefreshMint(cfg, s, h, draw, c).store, f, i)
  {
    DrawIsNew(cfg, s, draw);
    PresentedIsLast(cfg, s, h);
    assert LineOk(cfg, s, f);
    assert LinkOk(cfg, s, f, i);
    if s.past.lines[f].chain[i] == h {
      assert InflightOk(s, h);
    } else if i + 1 < |s.past.lines[f].chain| && s.past.lines[f].chain[i + 1] == h {
      assert LinkOk(cfg, s, f, i + 1);
    } else {
      SameLink(cfg, s, RefreshMint(cfg, s, h, draw, c).store, f, i);
    }
  }

  lemma MintLines(cfg: Settings, s: Store, h: Digest, draw: Draw, c: Clock, f: Id)
    requires CanMint(cfg, s, h, draw, c) && f in s.past.lines
    ensures LineOk(cfg, RefreshMint(cfg, s, h, draw, c).store, f)
  {
    var t := RefreshMint(cfg, s, h, draw, c).store;
    DrawIsNew(cfg, s, draw);
    assert LineOk(cfg, s, f);
    forall i | 0 <= i < |t.past.lines[f].chain| ensures LinkOk(cfg, t, f, i) {
      if i < |s.past.lines[f].chain| { MintOldLinks(cfg, s, h, draw, c, f, i); }
    }
  }

  lemma MintAround(cfg: Settings, s: Store, h: Digest, draw: Draw, c: Clock)
    requires CanMint(cfg, s, h, draw, c)
    ensures AroundTokens(RefreshMint(cfg, s, h, draw, c).store)
  {
    var t := RefreshMint(cfg, s, h, draw, c).store;
    DrawIsNew(cfg, s, draw);
    forall k | k in t.codes ensures CodeOk(t, k) {
      assert CodeOk(s, k);
      LineGrown(s, t, s.tokens[h].family, t.codes[k].session);
    }
    forall i | i in t.past.grants ensures GrantOk(t, i) { assert GrantOk(s, i); }
    forall i | i in t.sessions ensures SessionOk(t, i) { assert SessionOk(s, i); }
    forall x | x in t.inflight ensures InflightOk(t, x) { assert InflightOk(s, x); assert InflightOk(s, h); }
    forall k | k in t.redeeming ensures RedeemingOk(t, k) { assert RedeemingOk(s, k); }
  }

  lemma MintKeeps(cfg: Settings, s: Store, h: Digest, draw: Draw, c: Clock)
    requires CanMint(cfg, s, h, draw, c)
    ensures Inv(cfg, RefreshMint(cfg, s, h, draw, c).store)
  {
    var t := RefreshMint(cfg, s, h, draw, c).store;
    DrawIsNew(cfg, s, draw);
    forall x | x in t.tokens ensures TokenOk(t, x) { MintTokens(cfg, s, h, draw, c, x); }
    forall f | f in t.past.lines ensures LineOk(cfg, t, f) { MintLines(cfg, s, h, draw, c, f); }
    MintAround(cfg, s, h, draw, c);
  }

  lemma LineGrown(s: Store, t: Store, f: Id, session: Id)
    requires f in s.past.lines && f in t.past.lines && t.past.lines == s.past.lines[f := t.past.lines[f]]
    requires t.past.lines[f].session == s.past.lines[f].session
    ensures HasLine(t, session) <==> HasLine(s, session)
  {
    if HasLine(s, session) {
      var g :| g in s.past.lines && s.past.lines[g].session == session;
      assert g in t.past.lines && t.past.lines[g].session == session;
    }
    if HasLine(t, session) {
      var g :| g in t.past.lines && t.past.lines[g].session == session;
      assert g in s.past.lines && s.past.lines[g].session == session;
    }
  }

  lemma LoseSessionKeeps(cfg: Settings, s: Store, session: Id, c: Clock)
    requires Inv(cfg, s) && c.After(s.now)
    ensures Inv(cfg, LoseSession(s, session, c).store)
  {
    var t := s.(sessions := RevokeSession(s.sessions, session, c.mark));
    forall h | h in t.tokens ensures TokenOk(t, h) { assert TokenOk(s, h); }
    EndGrantKeeps(cfg, s, {}, session, Clock(c.check, c.check, c.check, c.mark));
    var u := EndGrant(s, {}, session, Clock(c.check, c.check, c.check, c.mark));
    assert u.tokens == s.tokens;
    WaitKeeps(cfg, u, u.(now := c.issue));
    assert u.(now := c.issue) == LoseSession(s, session, c).store;
  }

  lemma RegisterKeeps(cfg: Settings, s: Store, client: ClientId, c: Clock)
    requires Inv(cfg, s) && c.After(s.now) && client !in s.clients
    ensures Inv(cfg, Register(s, client, c).store)
  {
    var t := Register(s, client, c).store;
    forall h | h in t.tokens ensures TokenOk(t, h) { assert TokenOk(s, h); }
    forall f | f in t.past.lines ensures LineOk(cfg, t, f) {
      assert LineOk(cfg, s, f);
      forall i | 0 <= i < |t.past.lines[f].chain| ensures LinkOk(cfg, t, f, i) { assert LinkOk(cfg, s, f, i); }
    }
    forall k | k in t.codes ensures CodeOk(t, k) { assert CodeOk(s, k); SameLines(s, t, t.codes[k].session); }
    forall i | i in t.past.grants ensures GrantOk(t, i) { assert GrantOk(s, i); }
    forall i | i in t.sessions ensures SessionOk(t, i) { assert SessionOk(s, i); }
    forall h | h in t.inflight ensures InflightOk(t, h) { assert InflightOk(s, h); }
    forall k | k in t.redeeming ensures RedeemingOk(t, k) { assert RedeemingOk(s, k); }
  }

  /** What the cleanup deletes from a chain is a prefix of it: a row is purged before its successor. */
  lemma PurgedBeforeSuccessor(cfg: Settings, s: Store, f: Id, i: nat, cutoff: Time)
    requires Inv(cfg, s) && f in s.past.lines && i + 1 < |s.past.lines[f].chain|
    requires s.past.lines[f].chain[i] in s.tokens
    ensures s.past.lines[f].chain[i + 1] in s.tokens
    ensures TokenPurged(s.tokens[s.past.lines[f].chain[i + 1]], cutoff) ==>
      TokenPurged(s.tokens[s.past.lines[f].chain[i]], cutoff)
  {
    assert LineOk(cfg, s, f);
    assert LinkOk(cfg, s, f, i);
    assert LinkOk(cfg, s, f, i + 1);
  }

  ghost predicate CanPurge(cfg: Settings, s: Store, at: Time, c: Clock) {
    Inv(cfg, s) && Enabled(cfg, s, Purged(at, c))
  }

  /** Cleanup keeps referential integrity: a kept token or code keeps its session and its client, and a
      client that ever received tokens is never removed as abandoned. */
  lemma PurgeKeepsReferred(cfg: Settings, s: Store, at: Time, forget: bool, c: Clock)
    requires Inv(cfg, s)
    ensures var t := Purge(cfg, s, at, forget, c).store;
      && (forall h :: h in t.tokens ==> t.tokens[h].session in t.sessions && t.tokens[h].client in t.clients)
      && (forall k :: k in t.codes ==> t.codes[k].session in t.sessions && t.codes[k].client in t.clients)
      && (forall i :: i in s.past.grants && HasLine(s, i) ==> s.past.grants[i].client in t.clients)
  {
    var t := Purge(cfg, s, at, forget, c).store;
    forall i | i in s.past.grants && HasLine(s, i) ensures s.past.grants[i].client in t.clients {
      var f :| f in s.past.lines && s.past.lines[f].session == i;
      assert LineOk(cfg, s, f);
    }
    forall h | h in t.tokens ensures t.tokens[h].session in t.sessions && t.tokens[h].client in t.clients {
      assert TokenOk(s, h);
    }
    forall k | k in t.codes ensures t.codes[k].session in t.sessions && t.codes[k].client in t.clients {
      assert CodeOk(s, k);
    }
  }

  lemma PurgeLinks(cfg: Settings, s: Store, at: Time, forget: bool, c: Clock, f: Id, i: nat)
    requires CanPurge(cfg, s, at, c) && f in s.past.lines && i < |s.past.lines[f].chain|
    ensures LinkOk(cfg, Purge(cfg, s, at, forget, c).store, f, i)
  {
    hide KeptSessions, KeptCodes, KeptClients;
    assert LineOk(cfg, s, f);
    assert LinkOk(cfg, s, f, i);
    if i + 1 < |s.past.lines[f].chain| && s.past.lines[f].chain[i] in s.tokens {
      PurgedBeforeSuccessor(cfg, s, f, i, at - cfg.RetentionSeconds());
    }
  }

  lemma PurgeAround(cfg: Settings, s: Store, at: Time, forget: bool, c: Clock)
    requires CanPurge(cfg, s, at, c)
    ensures AroundTokens(Purge(cfg, s, at, forget, c).store)
  {
    var t := Purge(cfg, s, at, forget, c).store;
    PurgeKeepsReferred(cfg, s, at, forget, c);
    forall k | k in t.codes ensures CodeOk(t, k) { assert CodeOk(s, k); SameLines(s, t, t.codes[k].session); }
    forall i | i in t.past.grants ensures GrantOk(t, i) { assert GrantOk(s, i); }
    forall i | i in t.sessions ensures SessionOk(t, i) { assert SessionOk(s, i); }
    forall h | h in t.inflight ensures InflightOk(t, h) { assert InflightOk(s, h); }
    forall k | k in t.redeeming ensures RedeemingOk(t, k) { assert RedeemingOk(s, k); }
  }

  lemma PurgeKeeps(cfg: Settings, s: Store, at: Time, forget: bool, c: Clock)
    requires CanPurge(cfg, s, at, c)
    ensures Inv(cfg, Purge(cfg, s, at, forget, c).store)
  {
    var t := Purge(cfg, s, at, forget, c).store;
    PurgeKeepsReferred(cfg, s, at, forget, c);
    forall h | h in t.tokens ensures TokenOk(t, h) { assert TokenOk(s, h); }
    forall f | f in t.past.lines ensures LineOk(cfg, t, f) {
      assert LineOk(cfg, s, f);
      forall i | 0 <= i < |t.past.lines[f].chain|
        ensures LinkOk(cfg, t, f, i)
      {
        PurgeLinks(cfg, s, at, forget, c, f, i);
      }
    }
    PurgeAround(cfg, s, at, forget, c);
  }

  // ---------------------------------------------------------------- every run

  lemma ExchangeKeeps(cfg: Settings, s: Store, r: CodeGrant, unseen: set<Digest>, c: Clock)
    requires Inv(cfg, s) && Enabled(cfg, s, Exchanged(r, unseen, c))
    ensures Inv(cfg, Exchange(s, r, unseen, c).store)
  {
    hide Inv, CodeAccepted;
    if IsReplay(s, r) {
      EndGrantKeeps(cfg, s, Sweep(cfg, s, Exchanged(r, unseen, c)), s.codes[Digest(r.code.value)].session, c);
    } else {
      WaitKeeps(cfg, s, Exchange(s, r, unseen, c).store);
    }
  }

  lemma RefreshKeeps(cfg: Settings, s: Store, r: RefreshGrant, unseen: set<Digest>, c: Clock)
    requires Inv(cfg, s) && Enabled(cfg, s, RefreshAsked(r, unseen, c))
    ensures Inv(cfg, RefreshBegin(cfg, s, r, unseen, c).store)
  {
    hide Inv, RetriedRotation, StripSlashes, RefreshScope;
    if IsReuse(cfg, s, r, c) {
      EndGrantKeeps(cfg, s, Sweep(cfg, s, RefreshAsked(r, unseen, c)), s.tokens[Digest(r.token.value)].session, c);
    } else {
      WaitKeeps(cfg, s, RefreshBegin(cfg, s, r, unseen, c).store);
    }
  }

  lemma RevokeKeeps(cfg: Settings, s: Store, client: ClientId, token: Id, unseen: set<Digest>, c: Clock)
    requires Inv(cfg, s) && Enabled(cfg, s, Revoked(client, token, unseen, c))
    ensures Inv(cfg, RevokeToken(s, client, token, unseen, c).store)
  {
    hide Inv;
    if !IsOwnToken(s, client, token) {
      WaitKeeps(cfg, s, s.(now := c.issue));
    } else if s.tokens[Digest(token)].kind.Refresh? {
      EndGrantKeeps(cfg, s, Sweep(cfg, s, Revoked(client, token, unseen, c)), s.tokens[Digest(token)].session, c);
    } else {
      RevokeAccessKeeps(cfg, s, Digest(token), c);
    }
  }

  lemma RedeemKeeps(cfg: Settings, s: Store, k: Digest, draw: Draw, c: Clock)
    requires cfg.Valid() && Inv(cfg, s) && Enabled(cfg, s, Redeemed(k, draw, c))
    ensures Inv(cfg, Redeem(cfg, s, k, draw, c).store)
  {
    assert RedeemingOk(s, k);
    ConsumeCodeKeeps(cfg, s, k, draw, c);
  }

  lemma StepKeeps(cfg: Settings, s: Store, e: Event, forget: bool)
    requires cfg.Valid() && Inv(cfg, s) && Enabled(cfg, s, e)
    ensures Inv(cfg, Step(cfg, s, e, forget).store)
  {
    hide Inv, Sweep;
    match e
    case Registered(client, c) => RegisterKeeps(cfg, s, client, c);
    case SignedIn(client, metadataDocument, requested, form, redirectUri, challenge, session, code, c) =>
      LoginKeeps(cfg, s, client, metadataDocument, requested, form, redirectUri, challenge, session, code, c);
    case Exchanged(r, unseen, c) => ExchangeKeeps(cfg, s, r, unseen, c);
    case Redeemed(k, draw, c) => RedeemKeeps(cfg, s, k, draw, c);
    case RefreshAsked(r, unseen, c) => RefreshKeeps(cfg, s, r, unseen, c);
    case ContextLive(h, c) => WaitKeeps(cfg, s, RefreshLive(s, h, c).store);
    case ContextFailed(h, down, c) => WaitKeeps(cfg, s, RefreshAbort(s, h, down, c).store);
    case Refreshed(h, draw, c) => MintKeeps(cfg, s, h, draw, c);
    case Revoked(client, token, unseen, c) => RevokeKeeps(cfg, s, client, token, unseen, c);
    case SessionLost(session, c) => LoseSessionKeeps(cfg, s, session, c);
    case Purged(at, c) => PurgeKeeps(cfg, s, at, forget, c);
  }

  lemma {:induction false} RunKeeps(cfg: Settings, s: Store, events: seq<Event>)
    requires cfg.Valid() && Inv(cfg, s) && Runs(cfg, s, events)
    ensures Inv(cfg, After(cfg, s, events))
    decreases |events|
  {
    if events != [] {
      StepKeeps(cfg, s, events[0], true);
      RunKeeps(cfg, Step(cfg, s, events[0], true).store, events[1..]);
    }
  }

  /** The invariant holds in every store the server can reach. */
  lemma ReachableKeeps(cfg: Settings, s: Store)
    requires cfg.Valid() && Reachable(cfg, s)
    ensures Inv(cfg, s)
  {
    var events :| Runs(cfg, EMPTY, events) && After(cfg, EMPTY, events) == s;
    RunKeeps(cfg, EMPTY, events);
  }

  lemma {:induction false} RunThenStep(cfg: Settings, s: Store, events: seq<Event>, e: Event)
    requires Runs(cfg, s, events) && Enabled(cfg, After(cfg, s, events), e)
    ensures Runs(cfg, s, events + [e])
    ensures After(cfg, s, events + [e]) == Step(cfg, After(cfg, s, events), e, true).store
    decreases |events|
  {
    if events == [] {
      assert [e][1..] == [] && events + [e] == [e];
    } else {
      assert (events + [e])[1..] == events[1..] + [e];
      RunThenStep(cfg, Step(cfg, s, events[0], true).store, events[1..], e);
    }
  }

  /** A step leads from a reachable store to a reachable store. */
  lemma ReachableStep(cfg: Settings, s: Store, e: Event)
    requires Reachable(cfg, s) && Enabled(cfg, s, e)
    ensures Reachable(cfg, Step(cfg, s, e, true).store)
  {
    var events :| Runs(cfg, EMPTY, events) && After(cfg, EMPTY, events) == s;
    RunThenStep(cfg, EMPTY, events, e);
  }

  lemma EmptyReachable(cfg: Settings)
    ensures Reachable(cfg, EMPTY)
  {
    assert Runs(cfg, EMPTY, []) && After(cfg, EMPTY, []) == EMPTY;
  }

  /** Some number is above every drawn one. */
  lemma {:induction false} UndrawnFrom(ids: set<Id>) returns (n: Id)
    ensures forall m :: m in ids ==> m < n
    decreases ids
  {
    if ids == {} {
      n := 0;
    } else {
      var x :| x in ids;
      n := UndrawnFrom(ids - {x});
      if n <= x { n := x + 1; }
      assert forall m :: m in ids ==> m == x || m in ids - {x};
    }
  }
}
