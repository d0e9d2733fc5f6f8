/** Where a stored row comes from: every token of a run is traced back to the requests that led to it. */
module GrantTrail {
  import opened Common
  import opened Scopes
  import opened Grants
  import opened GrantInvariant
  import opened GrantHistory
  import opened GrantAnswers

  // ---------------------------------------------------------------- one more event

  /** A run and its last event. */
  lemma {:induction false} LastEvent(cfg: Settings, s: Store, events: seq<Event>)
    requires Runs(cfg, s, events) && events != []
    ensures var n := |events| - 1; Runs(cfg, s, events[..n]) && Enabled(cfg, After(cfg, s, events[..n]), events[n])
    ensures var n := |events| - 1;
      After(cfg, s, events) == Step(cfg, After(cfg, s, events[..n]), events[n], true).store
    decreases |events|
  {
    hide Enabled, Step;
    var n := |events| - 1;
    if n == 0 {
      assert events[1..] == [] && events[..0] == [];
    } else {
      var t := Step(cfg, s, events[0], true).store;
      LastEvent(cfg, t, events[1..]);
      assert events[1..][..n - 1] == events[..n][1..] && events[..n][0] == events[0];
      assert events[1..][n - 1] == events[n];
    }
  }

  lemma StoreOk(cfg: Settings, events: seq<Event>)
    requires cfg.Valid() && Runs(cfg, EMPTY, events)
    ensures Inv(cfg, After(cfg, EMPTY, events))
  {
    RunKeeps(cfg, EMPTY, events);
  }

  // ---------------------------------------------------------------- sign-in

  /** Optional access the person did not give on the login page. */
  predicate Refused(form: Consent, w: Word) {
    form.version2 && (w == TranscriptsRead || w == PhonesRead) && w !in form.checked
  }

  /** The sign-in `e` issued the code `k` with this row: for its client, redirect URI and challenge, and with
      exactly the requested words that were not refused. */
  ghost predicate IssuedBy(cfg: Settings, e: Event, k: Digest, row: Code) {
    && e.SignedIn? && k == Digest(e.code) && row.session == e.session
    && row.client == e.client && row.redirectUri == e.redirectUri && row.challenge == e.challenge
    && row.resource == cfg.resourceUrl && row.expiresAt == e.c.issue + cfg.codeMinutes * 60
    && forall w :: w in row.scope <==> w in e.requested && !Refused(e.form, w)
  }

  lemma NewCodeOf(cfg: Settings, s: Store, e: Event)
    requires Inv(cfg, s) && Enabled(cfg, s, e) && e.SignedIn?
    ensures Digest(e.code) !in s.codes && e.code !in s.past.drawn
  {
    hide Inv;
    assert [e.session, e.code][1] == e.code;
    NewCode(cfg, s, e.code);
  }

  /** What one event does to the codes: a sign-in issues one, and the others keep all but their use. */
  lemma CodeStep(cfg: Settings, s: Store, e: Event, k: Digest)
    requires Inv(cfg, s) && Enabled(cfg, s, e) && k in Step(cfg, s, e, true).store.codes
    ensures var row := Step(cfg, s, e, true).store.codes[k];
      if k in s.codes then row == s.codes[k].(consumedAt := row.consumedAt) else IssuedBy(cfg, e, k, row)
  {
    hide Inv, Sweep, Unlocked, RetriedRotation, StripSlashes, RefreshScope, CodeAccepted, Purge;
    if e.SignedIn? { NewCodeOf(cfg, s, e); }
    if e.Purged? { PurgeDeletesExactly(cfg, s, e.at, e.c); }
  }

  /** A completed sign-in of a known client, or of one named by its metadata document, adds one active session and
      its code, and changes no other row; any other client is refused and nothing is stored. */
  lemma SignInAnswers(cfg: Settings, s: Store, e: Event)
    requires Inv(cfg, s) && e.SignedIn? && Enabled(cfg, s, e)
    ensures var out := Step(cfg, s, e, true); var t := out.store;
      if e.client in s.clients || e.metadataDocument then
        && out.reply == CodeIssued(e.code)
        && t.codes.Keys == s.codes.Keys + {Digest(e.code)} && IssuedBy(cfg, e, Digest(e.code), t.codes[Digest(e.code)])
        && t.codes[Digest(e.code)].consumedAt == None && (forall k :: k in s.codes ==> t.codes[k] == s.codes[k])
        && t.sessions == s.sessions[e.session := Session(None)] && e.session !in s.sessions
        && t.clients == (if e.client in s.clients then s.clients
             else s.clients[e.client := Client(e.c.note, None)])
        && t.tokens == s.tokens
      else
        out.reply == InvalidClient && t == s.(now := e.c.issue)
  {
    NewCodeOf(cfg, s, e);
    assert [e.session, e.code][0] == e.session;
    NewSession(cfg, s, e.session);
    GrantedScopeIs(e.requested, e.form);
  }

  lemma GrantedScopeIs(requested: set<Word>, form: Consent)
    ensures forall w :: w in GrantedScope(requested, form) <==> w in requested && !Refused(form, w)
  {}

  /** Every stored code was issued by a sign-in of the run. */
  lemma {:induction false} CodeTrail(cfg: Settings, events: seq<Event>, k: Digest) returns (m: nat)
    requires cfg.Valid() && Runs(cfg, EMPTY, events) && k in After(cfg, EMPTY, events).codes
    ensures m < |events| && IssuedBy(cfg, events[m], k, After(cfg, EMPTY, events).codes[k])
    decreases |events|
  {
    hide Inv, Enabled, Step;
    var n := |events| - 1;
    LastEvent(cfg, EMPTY, events);
    StoreOk(cfg, events[..n]);
    var s := After(cfg, EMPTY, events[..n]);
    CodeStep(cfg, s, events[n], k);
    m := n;
    if k in s.codes { m := CodeTrail(cfg, events[..n], k); }
  }

  // ---------------------------------------------------------------- presentation

  /** The exchange `show` presents the code of the sign-in `e` in time: same client and redirect URI, and the
      verifier whose challenge the sign-in was given. */
  predicate Presented(cfg: Settings, e: Event, show: Event) {
    && e.SignedIn? && show.Exchanged? && show.codeGrant.code == Some(e.code)
    && show.codeGrant.client == e.client && show.codeGrant.redirectUri == e.redirectUri
    && WellFormedVerifier(show.codeGrant.verifier) && e.challenge == S256(show.codeGrant.verifier)
    && (show.codeGrant.resource == "" || StripSlashes(show.codeGrant.resource) == cfg.resourceUrl)
    && show.c.check < e.c.issue + cfg.codeMinutes * 60
  }

  lemma LockStep(cfg: Settings, s: Store, e: Event, k: Digest)
    requires Enabled(cfg, s, e) && k in Step(cfg, s, e, true).store.redeeming && k !in s.redeeming
    ensures e.Exchanged? && e.codeGrant.code == Some(k.secret) && k in s.codes
    ensures Shows(e.codeGrant, s.codes[k]) && e.c.check < s.codes[k].expiresAt
  {
    if e.Exchanged? {
      CodeExchangeAnswers(s, e.codeGrant, e.unseen, e.c);
      hide StripSlashes, WellFormedVerifier;
      assert Digest(e.codeGrant.code.value) == k;
    } else {
      hide Sweep, Unlocked, RetriedRotation, StripSlashes, RefreshScope, CodeAccepted;
    }
  }

  lemma RedeemingIsStored(cfg: Settings, s: Store, k: Digest)
    requires Inv(cfg, s) && k in s.redeeming
    ensures k in s.codes && CodeOk(s, k) && s.codes[k].consumedAt == None
  {
    assert RedeemingOk(s, k);
  }

  /** Every code that is being redeemed was presented, in time and by the client of its sign-in, with the
      verifier of its challenge. */
  lemma {:induction false} PresentationTrail(cfg: Settings, events: seq<Event>, k: Digest) returns (m: nat, i: nat)
    requires cfg.Valid() && Runs(cfg, EMPTY, events) && k in After(cfg, EMPTY, events).redeeming
    ensures m < i < |events| && Presented(cfg, events[m], events[i])
    ensures k in After(cfg, EMPTY, events).codes
    ensures IssuedBy(cfg, events[m], k, After(cfg, EMPTY, events).codes[k])
    decreases |events|
  {
    hide Inv, Enabled, Step, StripSlashes, WellFormedVerifier;
    var n := |events| - 1;
    LastEvent(cfg, EMPTY, events);
    StoreOk(cfg, events[..n]);
    StoreOk(cfg, events);
    var s := After(cfg, EMPTY, events[..n]);
    RedeemingIsStored(cfg, After(cfg, EMPTY, events), k);
    CodeStep(cfg, s, events[n], k);
    if k in s.redeeming {
      m, i := PresentationTrail(cfg, events[..n], k);
    } else {
      LockStep(cfg, s, events[n], k);
      m := CodeTrail(cfg, events[..n], k);
      i := n;
    }
  }

  // ---------------------------------------------------------------- tokens

  /** The grant of a sign-in: its client and exactly the requested words that were not refused. */
  ghost predicate GrantOf(e: Event, g: Grant) {
    && e.SignedIn? && g.client == e.client && g.code == Digest(e.code)
    && forall w :: w in g.scope <==> w in e.requested && !Refused(e.form, w)
  }

  /** The family `f` was begun by `redeemed`, for the session of the sign-in `e` and with its code. */
  predicate BegunBy(e: Event, redeemed: Event, f: Id, line: Line) {
    && e.SignedIn? && line.session == e.session
    && redeemed.Redeemed? && redeemed.k == Digest(e.code) && redeemed.draw.family == f
  }

  lemma FamilyStep(cfg: Settings, s: Store, e: Event, f: Id)
    requires Enabled(cfg, s, e) && f in Step(cfg, s, e, true).store.past.lines
    ensures var line := Step(cfg, s, e, true).store.past.lines[f];
      || (f in s.past.lines && line.session == s.past.lines[f].session)
      || (e.Redeemed? && e.k in s.redeeming && e.draw.family == f && line.session == s.codes[e.k].session)
  {
    hide Sweep, Unlocked, RetriedRotation, StripSlashes, RefreshScope, CodeAccepted;
  }

  /** Every family goes back to a sign-in, a presentation of its code and the redemption that began it. */
  lemma {:induction false} FamilyTrail(cfg: Settings, events: seq<Event>, f: Id) returns (m: nat, i: nat, j: nat)
    requires cfg.Valid() && Runs(cfg, EMPTY, events) && f in After(cfg, EMPTY, events).past.lines
    ensures m < i < j < |events| && Presented(cfg, events[m], events[i])
    ensures BegunBy(events[m], events[j], f, After(cfg, EMPTY, events).past.lines[f])
    ensures events[m].session in After(cfg, EMPTY, events).past.grants
    ensures GrantOf(events[m], After(cfg, EMPTY, events).past.grants[events[m].session])
    decreases |events|
  {
    hide Enabled, Step, StripSlashes, WellFormedVerifier, Inv, Later;
    var n := |events| - 1;
    LastEvent(cfg, EMPTY, events);
    StoreOk(cfg, events[..n]);
    var s := After(cfg, EMPTY, events[..n]);
    StepLater(cfg, s, events[n]);
    FamilyStep(cfg, s, events[n], f);
    if f in s.past.lines && After(cfg, EMPTY, events).past.lines[f].session == s.past.lines[f].session {
      m, i, j := FamilyTrail(cfg, events[..n], f);
    } else {
      j := n;
      m, i := RedemptionTrail(cfg, events[..n], events[n].k);
    }
    GrantsStay(cfg, s, After(cfg, EMPTY, events), events[m].session);
  }

  /** The code that is redeemed, its presentation and its sign-in. */
  lemma RedemptionTrail(cfg: Settings, events: seq<Event>, k: Digest) returns (m: nat, i: nat)
    requires cfg.Valid() && Runs(cfg, EMPTY, events) && k in After(cfg, EMPTY, events).redeeming
    ensures m < i < |events| && Presented(cfg, events[m], events[i]) && k == Digest(events[m].code)
    ensures var s := After(cfg, EMPTY, events);
      && k in s.codes && s.codes[k].session == events[m].session && events[m].session in s.past.grants
      && GrantOf(events[m], s.past.grants[events[m].session])
  {
    hide Enabled, Step, Presented, Inv;
    m, i := PresentationTrail(cfg, events, k);
    StoreOk(cfg, events);
    RedeemingIsStored(cfg, After(cfg, EMPTY, events), k);
  }

  lemma GrantsStay(cfg: Settings, s: Store, t: Store, i: Id)
    requires Later(cfg, s, t) && i in s.past.grants
    ensures i in t.past.grants && t.past.grants[i] == s.past.grants[i]
  {}

  /** Every token of every run was paid for: its family goes back to a sign-in of the same person's session,
      a presentation of the code by the same client with the verifier of the challenge and the redirect URI
      of the sign-in, and the redemption of that code. It carries no word that was not requested at the
      sign-in and none the person refused there. */
  lemma TokenTrail(cfg: Settings, events: seq<Event>, h: Digest) returns (m: nat, i: nat, j: nat)
    requires cfg.Valid() && Runs(cfg, EMPTY, events) && h in After(cfg, EMPTY, events).tokens
    ensures m < i < j < |events| && Presented(cfg, events[m], events[i])
    ensures var row := After(cfg, EMPTY, events).tokens[h];
      && events[j].Redeemed? && events[j].k == Digest(events[m].code) && events[j].draw.family == row.family
      && row.session == events[m].session && row.client == events[m].client && row.resource == cfg.resourceUrl
      && forall w :: w in row.scope ==> w in events[m].requested && !Refused(events[m].form, w)
  {
    hide Enabled, Step, Presented, Runs, After;
    var s := After(cfg, EMPTY, events);
    StoreOk(cfg, events);
    assert TokenOk(s, h);
    m, i, j := FamilyTrail(cfg, events, s.tokens[h].family);
    assert Reachable(cfg, s);
    OneResource(cfg, s);
  }

  // ---------------------------------------------------------------- replay

  /** No purge of the events reaches a code that expires at `expiry`. */
  predicate OutOfReach(cfg: Settings, events: seq<Event>, expiry: Time) {
    forall i :: 0 <= i < |events| && events[i].Purged? ==> events[i].at - cfg.retentionDays * 86400 <= expiry
  }

  /** A used code keeps its row until a purge reaches it, and then never comes back. */
  lemma UsedCodeStep(cfg: Settings, s: Store, e: Event, k: Digest)
    requires Inv(cfg, s) && Enabled(cfg, s, e) && k.secret in s.past.drawn
    requires k in s.codes ==> s.codes[k].consumedAt.Some?
    ensures var t := Step(cfg, s, e, true).store;
      && k.secret in t.past.drawn
      && (k in t.codes <==>
            k in s.codes && (e.Purged? ==> e.at - cfg.retentionDays * 86400 <= s.codes[k].expiresAt))
      && (k in t.codes ==> t.codes[k] == s.codes[k])
  {
    hide Inv, Purge, Sweep, Unlocked, RetriedRotation, StripSlashes, RefreshScope, CodeAccepted, RevokeRows, FamilyRows,
      SessionRows, RevokeSession, AddTokenPair, GrantedScope;
    if e.Redeemed? { RedeemingIsStored(cfg, s, e.k); }
    if e.SignedIn? { NewCodeOf(cfg, s, e); }
    if e.Purged? { PurgeDeletesExactly(cfg, s, e.at, e.c); }
  }

  lemma {:induction false} UsedCodeStays(cfg: Settings, s: Store, events: seq<Event>, k: Digest)
    requires cfg.Valid() && Inv(cfg, s) && Runs(cfg, s, events) && k.secret in s.past.drawn
    requires k in s.codes ==> s.codes[k].consumedAt.Some?
    ensures var t := After(cfg, s, events);
      && (k in t.codes <==> k in s.codes && OutOfReach(cfg, events, s.codes[k].expiresAt))
      && (k in t.codes ==> t.codes[k] == s.codes[k])
    decreases |events|
  {
    hide Inv, Enabled, Step;
    if events != [] {
      var t := Step(cfg, s, events[0], true).store;
      StepKeeps(cfg, s, events[0], true);
      UsedCodeStep(cfg, s, events[0], k);
      UsedCodeStays(cfg, t, events[1..], k);
      if k in s.codes { ReachCons(cfg, events, s.codes[k].expiresAt); }
    }
  }

  lemma ReachCons(cfg: Settings, events: seq<Event>, expiry: Time)
    requires events != []
    ensures OutOfReach(cfg, events, expiry) <==>
      (events[0].Purged? ==> events[0].at - cfg.retentionDays * 86400 <= expiry) && OutOfReach(cfg, events[1..], expiry)
  {
    if OutOfReach(cfg, events, expiry) {
      forall i | 0 <= i < |events[1..]| && events[1..][i].Purged?
        ensures events[1..][i].at - cfg.retentionDays * 86400 <= expiry
      {
        assert events[1..][i] == events[i + 1];
      }
    }
    if OutOfReach(cfg, events[1..], expiry) {
      forall i | 1 <= i < |events| && events[i].Purged? ensures events[i].at - cfg.retentionDays * 86400 <= expiry {
        assert events[i] == events[1..][i - 1];
      }
    }
  }

  /** Presenting a redeemed code again, at any time and after any events, is a replay exactly until a
      purge had a cutoff past the expiry of the code: till then every complete form that names it ends the
      session and revokes its tokens, whoever sends it. */
  lemma SecondUseIsCaught(cfg: Settings, s: Store, k: Digest, draw: Draw, c: Clock, events: seq<Event>,
                          r: CodeGrant, unseen: set<Digest>, c2: Clock)
    requires cfg.Valid() && Reachable(cfg, s) && Enabled(cfg, s, Redeemed(k, draw, c))
    requires Runs(cfg, Redeem(cfg, s, k, draw, c).store, events)
    requires var u := After(cfg, Redeem(cfg, s, k, draw, c).store, events);
      CompleteForm(u, r) && r.code == Some(k.secret)
    ensures var u := After(cfg, Redeem(cfg, s, k, draw, c).store, events);
      var out := Exchange(u, r, unseen, c2); var row := s.codes[k];
      && (out.reply == CodeReplayed <==> OutOfReach(cfg, events, row.expiresAt))
      && (out.reply != CodeReplayed ==> out.reply == InvalidGrant && out.store == u.(now := c2.issue))
      && (out.reply == CodeReplayed ==>
            && !SessionActive(out.store, row.session)
            && forall h :: h in out.store.tokens && out.store.tokens[h].session == row.session && h !in unseen ==>
                 out.store.tokens[h].revokedAt.Some?)
  {
    var t := Redeem(cfg, s, k, draw, c).store;
    ReachableKeeps(cfg, s);
    RedeemingIsStored(cfg, s, k);
    StepKeeps(cfg, s, Redeemed(k, draw, c), true);
    assert t.codes[k] == s.codes[k].(consumedAt := Some(c.mark)) && k.secret in t.past.drawn;
    hide Inv, Enabled, Step, Redeem, Exchange, Runs, After;
    UsedCodeStays(cfg, t, events, k);
    var u := After(cfg, t, events);
    CodeExchangeAnswers(u, r, unseen, c2);
    CodeExchangeChanges(u, r, unseen, c2);
    assert Digest(r.code.value) == k;
  }
}
