/** The promises of the grant lifecycle, for every reachable store and every later run. */
module GrantSafety {
  import opened Common
  import opened Scopes
  import opened Grants
  import opened GrantInvariant
  import opened GrantHistory

  // ---------------------------------------------------------------- shape of a family

  ghost predicate FamilyRefresh(s: Store, f: Id, h: Digest) {
    IsRefreshRow(s, h) && s.tokens[h].family == f
  }

  /** The row at place `i` names the next as its replacement; exactly a used row has one, and it is
      revoked; only the last can be unused. */
  predicate Linked(s: Store, chain: seq<Digest>, i: nat)
    requires i < |chain|
  {
    && chain[i] in s.tokens
    && s.tokens[chain[i]].replacedBy == (if i + 1 < |chain| then Some(chain[i + 1]) else None)
    && (s.tokens[chain[i]].consumedAt.Some? <==> s.tokens[chain[i]].replacedBy.Some?)
    && (s.tokens[chain[i]].consumedAt.Some? ==> s.tokens[chain[i]].revokedAt.Some?)
  }

  /** The refresh rows of a family are what is left, from place `k` on, of one linear chain of
      distinct tokens. What is gone is therefore a prefix, and at most the last is unused. */
  lemma OneChain(cfg: Settings, s: Store, f: Id) returns (k: nat)
    requires cfg.Valid() && Reachable(cfg, s) && f in s.past.lines
    ensures var chain := s.past.lines[f].chain;
      && k <= |chain|
      && (forall i, j :: 0 <= i < j < |chain| ==> chain[i] != chain[j])
      && (forall h :: FamilyRefresh(s, f, h) <==> h in chain[k..])
      && (forall i :: k <= i < |chain| ==> Linked(s, chain, i))
  {
    ReachableKeeps(cfg, s);
    assert LineOk(cfg, s, f);
    var chain := s.past.lines[f].chain;
    k := |chain|;
    while k > 0 && chain[k - 1] in s.tokens
      invariant k <= |chain|
      invariant forall i :: k <= i < |chain| ==> chain[i] in s.tokens
    {
      k := k - 1;
    }
    GoneBelow(cfg, s, f, k);
    forall i | k <= i < |chain| ensures Linked(s, chain, i) && FamilyRefresh(s, f, chain[i]) {
      assert LinkOk(cfg, s, f, i);
    }
    forall h | FamilyRefresh(s, f, h) ensures h in chain[k..] {
      var i := Place(cfg, s, h);
      assert chain[k..][i - k] == h;
    }
  }

  /** Below a place whose row is gone every row is gone. */
  lemma {:induction false} GoneBelow(cfg: Settings, s: Store, f: Id, k: nat)
    requires Inv(cfg, s) && f in s.past.lines && k <= |s.past.lines[f].chain|
    requires k > 0 ==> s.past.lines[f].chain[k - 1] !in s.tokens
    ensures forall i :: 0 <= i < k ==> s.past.lines[f].chain[i] !in s.tokens
  {
    if k > 0 {
      assert LineOk(cfg, s, f);
      if k > 1 { assert LinkOk(cfg, s, f, k - 2); }
      GoneBelow(cfg, s, f, k - 1);
    }
  }

  /** One grant, one session, one family: whether or not its code is still stored, tokens share their
      session exactly when they share their family and exactly when they descend from the same code. */
  lemma SessionIsOneGrant(cfg: Settings, s: Store)
    requires cfg.Valid() && Reachable(cfg, s)
    ensures forall h :: h in s.tokens ==> h in s.past.origin
    ensures forall h, n :: h in s.tokens && n in s.tokens ==>
      && (s.tokens[h].session == s.tokens[n].session <==> s.tokens[h].family == s.tokens[n].family)
      && (s.tokens[h].session == s.tokens[n].session <==> s.past.origin[h] == s.past.origin[n])
  {
    ReachableKeeps(cfg, s);
    forall h | h in s.tokens ensures h in s.past.origin { assert TokenOk(s, h); }
    forall h, n | h in s.tokens && n in s.tokens
      ensures s.tokens[h].session == s.tokens[n].session <==> s.tokens[h].family == s.tokens[n].family
      ensures s.tokens[h].session == s.tokens[n].session <==> s.past.origin[h] == s.past.origin[n]
    {
      assert TokenOk(s, h) && TokenOk(s, n);
      assert s.past.lines[s.tokens[h].family].session == s.past.lines[s.tokens[n].family].session ==>
        s.tokens[h].family == s.tokens[n].family;
    }
  }

  /** What a code replay revokes by session is exactly what that code issued and everything refreshed
      from it; the session has no other code, and nothing before its code is used. */
  lemma ReplayHitsItsGrant(cfg: Settings, s: Store, k: Digest)
    requires cfg.Valid() && Reachable(cfg, s) && k in s.codes
    ensures forall h :: h in s.tokens ==>
      h in s.past.origin && (s.tokens[h].session == s.codes[k].session <==> s.past.origin[h] == k)
    ensures forall x :: x in s.codes && s.codes[x].session == s.codes[k].session ==> x == k
    ensures s.codes[k].consumedAt.None? ==> forall h :: h in s.tokens ==> s.tokens[h].session != s.codes[k].session
  {
    ReachableKeeps(cfg, s);
    assert CodeOk(s, k);
    forall h | h in s.tokens
      ensures h in s.past.origin && (s.tokens[h].session == s.codes[k].session <==> s.past.origin[h] == k)
      ensures s.codes[k].consumedAt.None? ==> s.tokens[h].session != s.codes[k].session
    {
      assert TokenOk(s, h);
    }
    forall x | x in s.codes && s.codes[x].session == s.codes[k].session ensures x == k { assert CodeOk(s, x); }
  }

  /** Scopes only shrink along a grant and the resource never changes. */
  lemma ScopesOnlyShrink(cfg: Settings, s: Store, h: Digest)
    requires cfg.Valid() && Reachable(cfg, s) && h in s.tokens
    ensures s.tokens[h].session in s.past.grants
    ensures var t := s.tokens[h]; var g := s.past.grants[t.session];
      && t.scope <= g.scope <= g.requested <= ALLOWED
      && t.resource == g.resource && t.client == g.client
      && (g.code in s.codes ==> s.codes[g.code].scope == g.scope && s.codes[g.code].resource == g.resource)
      && (t.replacedBy.Some? ==>
            && t.replacedBy.value in s.tokens
            && s.tokens[t.replacedBy.value].scope <= t.scope && s.tokens[t.replacedBy.value].resource == t.resource)
  {
    ReachableKeeps(cfg, s);
    assert TokenOk(s, h);
    var t := s.tokens[h];
    var g := s.past.grants[t.session];
    assert GrantOk(s, t.session);
    if g.code in s.codes {
      assert CodeOk(s, g.code);
      assert s.past.grants[s.codes[g.code].session].code == g.code;
    }
    if t.replacedBy.Some? {
      var i := Place(cfg, s, h);
      assert LineOk(cfg, s, t.family) && LinkOk(cfg, s, t.family, i + 1);
      assert TokenOk(s, t.replacedBy.value);
    }
  }

  // ---------------------------------------------------------------- revocation is final

  /** The three events that end a grant. */
  predicate EndsGrant(cfg: Settings, s: Store, e: Event, session: Id) {
    || (e.Exchanged? && IsReplay(s, e.codeGrant) && s.codes[Digest(e.codeGrant.code.value)].session == session)
    || (e.RefreshAsked? && IsReuse(cfg, s, e.refresh, e.c)
        && s.tokens[Digest(e.refresh.token.value)].session == session)
    || (e.Revoked? && IsOwnToken(s, e.client, e.token) && s.tokens[Digest(e.token)].kind.Refresh?
        && s.tokens[Digest(e.token)].session == session)
  }

  /** The session is over, its code is used, and only the refreshes `already` past OKK are still going. */
  ghost predicate Ended(s: Store, session: Id, already: set<Digest>) {
    && session in s.past.grants && !SessionActive(s, session) && HasLine(s, session)
    && (forall h {:trigger s.inflight[h]} ::
          h in s.inflight && s.inflight[h].live && h in s.tokens && s.tokens[h].session == session ==> h in already)
  }

  function LiveRefreshes(s: Store, session: Id): set<Digest> {
    set h | h in s.inflight && s.inflight[h].live && h in s.tokens && s.tokens[h].session == session
  }

  lemma EndsGrantEnds(cfg: Settings, s: Store, e: Event, session: Id)
    requires cfg.Valid() && Inv(cfg, s) && Enabled(cfg, s, e) && EndsGrant(cfg, s, e, session)
    ensures Ended(Step(cfg, s, e, true).store, session, LiveRefreshes(s, session))
  {
    var t := Step(cfg, s, e, true).store;
    if e.Exchanged? {
      assert CodeOk(s, Digest(e.codeGrant.code.value));
    } else {
      var h := if e.RefreshAsked? then Digest(e.refresh.token.value) else Digest(e.token);
      assert TokenOk(s, h);
      assert s.tokens[h].family in s.past.lines;
    }
    SameLines(s, t, session);
  }

  lemma HasLineGrows(cfg: Settings, s: Store, t: Store, session: Id)
    requires Later(cfg, s, t) && HasLine(s, session)
    ensures HasLine(t, session)
  {
    var f :| f in s.past.lines && s.past.lines[f].session == session;
    assert f in t.past.lines && t.past.lines[f].session == session;
  }

  /** An event after the end starts nothing: no refresh passes OKK, and new tokens of the session come
      only from a refresh that already had. */
  lemma EndedStep(cfg: Settings, s: Store, e: Event, session: Id, already: set<Digest>)
    requires cfg.Valid() && Inv(cfg, s) && Enabled(cfg, s, e) && Ended(s, session, already)
    ensures Ended(Step(cfg, s, e, true).store, session, already)
    ensures already == {} ==> SessionTokens(Step(cfg, s, e, true).store, session) <= SessionTokens(s, session)
  {
    var t := Step(cfg, s, e, true).store;
    StepLater(cfg, s, e);
    HasLineGrows(cfg, s, t, session);
    forall h | h in t.inflight && t.inflight[h].live && h in t.tokens && t.tokens[h].session == session
      ensures h in already
    {
      EndedLive(cfg, s, e, session, already, h);
    }
    if already == {} {
      forall h | h in t.tokens && t.tokens[h].session == session
        ensures h in s.tokens && s.tokens[h].session == session
      {
        EndedTokens(cfg, s, e, session, h);
      }
    }
  }

  function SessionTokens(s: Store, session: Id): set<Digest> {
    set h | h in s.tokens && s.tokens[h].session == session
  }

  lemma EndedLive(cfg: Settings, s: Store, e: Event, session: Id, already: set<Digest>, h: Digest)
    requires cfg.Valid() && Inv(cfg, s) && Enabled(cfg, s, e) && Ended(s, session, already)
    requires Later(cfg, s, Step(cfg, s, e, true).store)
    requires var t := Step(cfg, s, e, true).store;
      h in t.inflight && t.inflight[h].live && h in t.tokens && t.tokens[h].session == session
    ensures h in already
  {
    var t := Step(cfg, s, e, true).store;
    LiveBefore(cfg, s, e, h);
    assert InflightOk(s, h);
    assert TokenOk(s, h);
    assert RowLater(cfg, s.tokens[h], t.tokens[h], t.now);
  }

  /** Only `live_context` makes a refresh live. */
  lemma LiveBefore(cfg: Settings, s: Store, e: Event, h: Digest)
    requires Enabled(cfg, s, e) && h in Step(cfg, s, e, true).store.inflight
    requires Step(cfg, s, e, true).store.inflight[h].live
    ensures h in s.inflight && (s.inflight[h].live || (e.ContextLive? && e.h == h))
  {}

  lemma EndedTokens(cfg: Settings, s: Store, e: Event, session: Id, h: Digest)
    requires cfg.Valid() && Inv(cfg, s) && Enabled(cfg, s, e) && Ended(s, session, {})
    requires var t := Step(cfg, s, e, true).store; h in t.tokens && t.tokens[h].session == session
    ensures h in s.tokens && s.tokens[h].session == session
  {
    EndedIssuesNothing(cfg, s, e, session);
    if h in s.tokens {
      StepLater(cfg, s, e);
      assert TokenOk(s, h);
      assert RowLater(cfg, s.tokens[h], Step(cfg, s, e, true).store.tokens[h], Step(cfg, s, e, true).store.now);
    } else {
      NewTokenFrom(cfg, s, e, h);
    }
  }

  lemma EndedIssuesNothing(cfg: Settings, s: Store, e: Event, session: Id)
    requires Inv(cfg, s) && Ended(s, session, {})
    ensures !Issues(s, e, session)
  {
    if e.Redeemed? && e.k in s.redeeming {
      assert RedeemingOk(s, e.k);
      assert CodeOk(s, e.k);
    }
  }

  lemma {:induction false} EndedRun(cfg: Settings, s: Store, events: seq<Event>, session: Id, already: set<Digest>)
    requires cfg.Valid() && Inv(cfg, s) && Runs(cfg, s, events) && Ended(s, session, already)
    ensures Ended(After(cfg, s, events), session, already)
    ensures already == {} ==> SessionTokens(After(cfg, s, events), session) <= SessionTokens(s, session)
    decreases |events|
  {
    if events != [] {
      StepKeeps(cfg, s, events[0], true);
      EndedStep(cfg, s, events[0], session, already);
      EndedRun(cfg, Step(cfg, s, events[0], true).store, events[1..], session, already);
    }
  }

  /** After a code replay, a refresh reuse or a /revoke of a refresh token, in every later run:
      no access token of the session verifies, whatever OKK answers or fails to answer; no refresh gets
      past OKK any more, so the refreshes that can still mint only become fewer and are among those that
      were past OKK at that moment; and if there was none, the session never gets another token. */
  lemma RevocationIsFinal(cfg: Settings, s: Store, e: Event, session: Id, events: seq<Event>, more: seq<Event>)
    requires cfg.Valid() && Reachable(cfg, s) && Enabled(cfg, s, e) && EndsGrant(cfg, s, e, session)
    requires Runs(cfg, Step(cfg, s, e, true).store, events)
    requires Runs(cfg, After(cfg, Step(cfg, s, e, true).store, events), more)
    ensures var read := After(cfg, Step(cfg, s, e, true).store, events);
      var answered := After(cfg, read, more);
      && (forall token, at, okk :: Digest(token) in read.tokens && read.tokens[Digest(token)].session == session ==>
            VerifyToken(cfg, read, answered, token, at, okk) == None)
      && LiveRefreshes(answered, session) <= LiveRefreshes(read, session) <= LiveRefreshes(s, session)
      && (forall h, draw, c ::
            h in read.tokens && read.tokens[h].session == session && Enabled(cfg, read, Refreshed(h, draw, c)) ==>
            h in LiveRefreshes(read, session))
      && (LiveRefreshes(s, session) == {} ==> SessionTokens(read, session) <= SessionTokens(s, session))
  {
    var t := Step(cfg, s, e, true).store;
    var already := LiveRefreshes(s, session);
    ReachableKeeps(cfg, s);
    StepKeeps(cfg, s, e, true);
    EndsGrantEnds(cfg, s, e, session);
    EndsGrantAddsNothing(cfg, s, e, session);
    EndedRun(cfg, t, events, session, already);
    RunKeeps(cfg, t, events);
    var read := After(cfg, t, events);
    assert Ended(read, session, LiveRefreshes(read, session));
    EndedRun(cfg, read, more, session, LiveRefreshes(read, session));
    forall h, draw, c | h in read.tokens && read.tokens[h].session == session &&
          Enabled(cfg, read, Refreshed(h, draw, c))
      ensures h in LiveRefreshes(read, session)
    {
      MintNeedsLive(cfg, read, h, draw, c);
    }
  }

  /** The session gets no further token in any run exactly when no refresh of it was past OKK when the
      grant ended: one that was still writes its pair. */
  lemma NoMoreTokensIffNoneInFlight(cfg: Settings, s: Store, e: Event, session: Id)
    requires cfg.Valid() && Reachable(cfg, s) && Enabled(cfg, s, e) && EndsGrant(cfg, s, e, session)
    ensures LiveRefreshes(s, session) == {} <==>
      forall u :: Leads(cfg, Step(cfg, s, e, true).store, u) ==> SessionTokens(u, session) <= SessionTokens(s, session)
  {
    hide Step, Enabled, EndsGrant, SessionTokens, Runs, After;
    var t := Step(cfg, s, e, true).store;
    if LiveRefreshes(s, session) == {} {
      forall u | Leads(cfg, t, u) ensures SessionTokens(u, session) <= SessionTokens(s, session) {
        var events :| Runs(cfg, t, events) && After(cfg, t, events) == u;
        NoEvents(cfg, u);
        RevocationIsFinal(cfg, s, e, session, events, []);
      }
    } else {
      var h :| h in LiveRefreshes(s, session);
      var u := LateMint(cfg, s, e, session, h);
    }
  }

  lemma NoEvents(cfg: Settings, s: Store)
    ensures Runs(cfg, s, []) && After(cfg, s, []) == s
  {}

  /** A refresh past OKK when the grant ended can write a pair after it. */
  lemma LateMint(cfg: Settings, s: Store, e: Event, session: Id, h: Digest) returns (u: Store)
    requires cfg.Valid() && Reachable(cfg, s) && Enabled(cfg, s, e) && EndsGrant(cfg, s, e, session)
    requires h in LiveRefreshes(s, session)
    ensures Leads(cfg, Step(cfg, s, e, true).store, u) && !(SessionTokens(u, session) <= SessionTokens(s, session))
  {
    var t := Step(cfg, s, e, true).store;
    ReachableKeeps(cfg, s);
    StepKeeps(cfg, s, e, true);
    StillLive(cfg, s, e, session, h);
    u := MintNow(cfg, t, session, h);
    EndsGrantAddsNothing(cfg, s, e, session);
  }

  lemma StillLive(cfg: Settings, s: Store, e: Event, session: Id, h: Digest)
    requires Enabled(cfg, s, e) && EndsGrant(cfg, s, e, session) && h in LiveRefreshes(s, session)
    ensures h in LiveRefreshes(Step(cfg, s, e, true).store, session)
  {}

  /** A refresh that passed OKK can write its pair at any moment. */
  lemma MintNow(cfg: Settings, s: Store, session: Id, h: Digest) returns (u: Store)
    requires cfg.Valid() && Inv(cfg, s) && h in LiveRefreshes(s, session)
    ensures Leads(cfg, s, u) && !(SessionTokens(u, session) <= SessionTokens(s, session))
  {
    var n := UndrawnFrom(s.past.drawn);
    var c := Clock(s.now, s.now, s.now, s.now);
    var minted := Refreshed(h, Draw(n, n + 1, n + 2), c);
    assert TokenOk(s, h);
    assert Enabled(cfg, s, minted);
    u := Step(cfg, s, minted, true).store;
    RunOf(cfg, s, minted);
    forall x | x in s.tokens ensures x != Digest(n + 1) { assert TokenOk(s, x); }
    assert Digest(n + 1) in SessionTokens(u, session) && Digest(n + 1) !in SessionTokens(s, session);
  }

  lemma RunOf(cfg: Settings, s: Store, e: Event)
    requires Enabled(cfg, s, e)
    ensures Leads(cfg, s, Step(cfg, s, e, true).store)
  {
    var t := Step(cfg, s, e, true).store;
    assert [e][1..] == [];
    assert Runs(cfg, t, []) && After(cfg, t, []) == t;
    assert Runs(cfg, s, [e]) && After(cfg, s, [e]) == t;
  }

  lemma MintNeedsLive(cfg: Settings, s: Store, h: Digest, draw: Draw, c: Clock)
    requires Enabled(cfg, s, Refreshed(h, draw, c))
    ensures h in s.inflight && s.inflight[h].live
  {}

  lemma EndsGrantAddsNothing(cfg: Settings, s: Store, e: Event, session: Id)
    requires Enabled(cfg, s, e) && EndsGrant(cfg, s, e, session)
    ensures SessionTokens(Step(cfg, s, e, true).store, session) <= SessionTokens(s, session)
  {}

  // ---------------------------------------------------------------- the retry window

  /** The pair issued for a used token may be given again: the window is open and the issued refresh
      token is neither used nor revoked. */
  predicate MayRetry(cfg: Settings, s: Store, used: Time, successor: Digest, at: Time) {
    && at - used <= cfg.retrySeconds
    && successor in s.tokens
    && s.tokens[successor].consumedAt.None? && s.tokens[successor].revokedAt.None?
  }

  /** A used, unexpired refresh token has exactly two answers, at any time after its use and after any
      events, earlier retries among them: the very pair issued first, with the store unchanged, or the
      end of the family and the session. */
  lemma UsedTokenHasTwoAnswers(cfg: Settings, s: Store, h: Digest, draw: Draw, c: Clock, events: seq<Event>,
                               r: RefreshGrant, unseen: set<Digest>, c2: Clock)
    requires cfg.Valid() && Reachable(cfg, s) && Enabled(cfg, s, Refreshed(h, draw, c))
    requires Runs(cfg, RefreshMint(cfg, s, h, draw, c).store, events)
    requires var t := After(cfg, RefreshMint(cfg, s, h, draw, c).store, events);
      Enabled(cfg, t, RefreshAsked(r, unseen, c2)) && r.token == Some(h.secret) && Presentable(t, r, c2.check)
    ensures var first := RefreshMint(cfg, s, h, draw, c);
      var t := After(cfg, first.store, events);
      var again := RefreshBegin(cfg, t, r, unseen, c2);
      if MayRetry(cfg, t, c.mark, Digest(draw.refresh), c2.mark) then
        again.reply == first.reply && again.store == t.(now := c2.issue)
      else
        && again.reply == RefreshReused
        && !SessionActive(again.store, s.tokens[h].session)
        && (forall x :: x in again.store.tokens && x !in unseen ==>
              again.store.tokens[x].session == s.tokens[h].session ==> again.store.tokens[x].revokedAt.Some?)
  {
    var first := RefreshMint(cfg, s, h, draw, c).store;
    var t := After(cfg, first, events);
    UsedRowAfter(cfg, s, h, draw, c, events);
    SameSessionSameFamily(cfg, t, h);
    assert h == Digest(h.secret);
    var again := RefreshBegin(cfg, t, r, unseen, c2);
    if !MayRetry(cfg, t, c.mark, Digest(draw.refresh), c2.mark) {
      assert again.store == EndGrant(t, FamilyRows(t.tokens, t.tokens[h].family) - unseen, t.tokens[h].session, c2);
    }
  }

  /** What any later store still says of the row a refresh used up, and of its successor. */
  lemma UsedRowAfter(cfg: Settings, s: Store, h: Digest, draw: Draw, c: Clock, events: seq<Event>)
    requires cfg.Valid() && Reachable(cfg, s) && Enabled(cfg, s, Refreshed(h, draw, c))
    requires Runs(cfg, RefreshMint(cfg, s, h, draw, c).store, events)
    requires h in After(cfg, RefreshMint(cfg, s, h, draw, c).store, events).tokens
    ensures var t := After(cfg, RefreshMint(cfg, s, h, draw, c).store, events);
      var row := t.tokens[h];
      var next := Digest(draw.refresh);
      && Inv(cfg, t)
      && row.kind.Refresh? && row.session == s.tokens[h].session
      && row.consumedAt == Some(c.mark) && row.replacedBy == Some(next)
      && (row.sealed == Some(Pair(draw.access, draw.refresh)) ||
          (row.sealed.None? && c.mark + cfg.retrySeconds < t.now))
      && IsRefreshRow(t, next) && t.tokens[next].scope == s.inflight[h].scope
  {
    var first := RefreshMint(cfg, s, h, draw, c).store;
    var t := After(cfg, first, events);
    ReachableKeeps(cfg, s);
    StepKeeps(cfg, s, Refreshed(h, draw, c), true);
    RunLater(cfg, first, events);
    assert InflightOk(s, h) && TokenOk(s, h);
    DrawIsNew(cfg, s, draw);
    assert RowLater(cfg, first.tokens[h], t.tokens[h], t.now);
    var next := Digest(draw.refresh);
    var i := Place(cfg, t, h);
    assert RowLater(cfg, first.tokens[next], t.tokens[next], t.now);
  }

  lemma SameSessionSameFamily(cfg: Settings, s: Store, h: Digest)
    requires Inv(cfg, s) && h in s.tokens
    ensures forall x :: x in s.tokens ==>
      (s.tokens[x].session == s.tokens[h].session <==> s.tokens[x].family == s.tokens[h].family)
  {
    assert TokenOk(s, h);
    forall x | x in s.tokens
      ensures s.tokens[x].session == s.tokens[h].session <==> s.tokens[x].family == s.tokens[h].family
    {
      assert TokenOk(s, x);
      assert s.past.lines[s.tokens[h].family].session == s.past.lines[s.tokens[x].family].session ==>
        s.tokens[h].family == s.tokens[x].family;
    }
  }
}
