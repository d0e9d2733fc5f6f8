/** What `live_context` and a read may rely on: who is let through, what ends a session, and when OKK is
    asked to renew it. */
module RotationAnswers {
  import opened Common
  import opened RenewalCache
  import opened Rotation

  // ---------------------------------------------------------------- one more event

  /** A run and its last event. */
  lemma {:induction false} LastEvent(s: State, events: seq<Event>)
    requires Runs(s, events) && events != []
    ensures var n := |events| - 1; Runs(s, events[..n]) && Enabled(After(s, events[..n]), events[n])
    ensures var n := |events| - 1; After(s, events) == Next(After(s, events[..n]), events[n])
    decreases |events|
  {
    hide Enabled, Next;
    var n := |events| - 1;
    if n == 0 {
      assert events[1..] == [] && events[..0] == [];
    } else {
      var t := Next(s, events[0]);
      LastEvent(t, events[1..]);
      assert events[1..][..n - 1] == events[..n][1..] && events[..n][0] == events[0];
      assert events[1..][n - 1] == events[n];
    }
  }

  // ---------------------------------------------------------------- who is let through

  /** The account context a request works with: the token `live_context` gave it. */
  function Context(p: Phase): Option<Access> {
    match p
    case Ready(_, a) => Some(a)
    case Queued(_, _, home) => home
    case Holding(_, _, home) => home
    case Answered(_, _, home, _, _) => home
    case Stored(_, _, home, _) => home
    case Rechecking(_, _, home, _) => home
    case _ => None
  }

  /** `live_context` lets the request through: the person is the same, and the session row is stored and not
      revoked at that moment. */
  predicate Confirms(s: State, e: Event, req: RequestId, session: SessionId, a: Access) {
    && e == Confirm(req, true) && req in s.requests && s.requests[req] == Confirming(session, a)
    && session in s.rows && !s.rows[session].revoked
  }

  /** In the locked section a request keeps its session and its context or ends. */
  lemma LockedContext(s: State, e: Event)
    requires Enabled(s, e) && (e.Present? || e.TakeLock?)
    ensures var p, q := s.requests[e.req], Next(s, e).requests[e.req];
      q.session == p.session && (Context(q) == Context(p) || Context(q) == None)
    ensures Next(s, e).requests == s.requests[e.req := Next(s, e).requests[e.req]]
  {}

  lemma ContextStep(s: State, e: Event, req: RequestId)
    requires Enabled(s, e) && req in Next(s, e).requests && Context(Next(s, e).requests[req]).Some?
    ensures var p := Next(s, e).requests[req];
      || (req in s.requests && s.requests[req].session == p.session && Context(s.requests[req]) == Context(p))
      || Confirms(s, e, req, p.session, Context(p).value)
  {
    hide Remembered, Current, PresentStep, TakeLockStep;
    if e.Present? || e.TakeLock? { LockedContext(s, e); }
  }

  /** Nobody works for a session unless `live_context` let the request through: the last person OKK named was the
      one who signed in, and the session was stored and not revoked then. What it works with is the
      token that was checked. */
  lemma {:induction false} ReadyWasConfirmed(events: seq<Event>, req: RequestId) returns (n: nat)
    requires Runs(INITIAL, events) && req in After(INITIAL, events).requests
    requires Context(After(INITIAL, events).requests[req]).Some?
    ensures n < |events| && Runs(INITIAL, events[..n])
    ensures var p := After(INITIAL, events).requests[req];
      Confirms(After(INITIAL, events[..n]), events[n], req, p.session, Context(p).value)
    decreases |events|
  {
    hide Enabled, Next, Context, Confirms;
    n := |events| - 1;
    LastEvent(INITIAL, events);
    var s, p := After(INITIAL, events[..n]), After(INITIAL, events).requests[req];
    ContextStep(s, events[n], req);
    if !Confirms(s, events[n], req, p.session, Context(p).value) {
      var last := n;
      n := ReadyWasConfirmed(events[..last], req);
      assert events[..last][..n] == events[..n] && events[..last][n] == events[n];
    }
  }

  /** A token comes to be confirmed only when OKK just accepted it, in the check of a stored token or as the pair
      it answered. */
  lemma ConfirmingWasAccepted(s: State, e: Event, req: RequestId, session: SessionId, a: Access)
    requires Enabled(s, e) && req in Next(s, e).requests && Next(s, e).requests[req] == Confirming(session, a)
    ensures req in s.requests && s.requests[req] != Confirming(session, a) ==>
      || (e == MeAccepted(req) && s.requests[req] == Checking(session, a))
      || (e == RecheckAccepted(req) && s.requests[req].Rechecking? && s.requests[req].access == a)
      || (e == Remember(req) && s.requests[req].Stored? && s.requests[req].access == a)
    ensures req in s.requests
  {
    hide Remembered, Current;
  }

  // ---------------------------------------------------------------- what ends a session

  /** What ends an active session: OKK refuses its refresh token or answers something unusable, `/auth/me` names
      another person, or it is logged out. An outage, a lost answer or a failed commit does not. */
  lemma WhatEndsASession(s: State, e: Event, session: SessionId)
    requires Enabled(s, e) && Active(s, session)
    ensures !Active(Next(s, e), session) <==>
      || (e.Present? && (e.answer == Refused || e.answer == Unusable) && s.requests[e.req].session == session)
      || (e.Confirm? && !e.samePerson && s.requests[e.req].session == session)
      || e == Logout(session)
  {}

  /** Another person's answer: the session is revoked, the request fails. */
  lemma StrangerIsRefused(s: State, req: RequestId)
    requires Enabled(s, Confirm(req, false)) && Active(s, s.requests[req].session)
    ensures var t := Next(s, Confirm(req, false)); var session := s.requests[req].session;
      t.requests[req] == Failed(session) && session in t.rows && t.rows[session].revoked
  {}

  lemma RevokedStays(s: State, e: Event, session: SessionId)
    requires Enabled(s, e) && session in s.rows && s.rows[session].revoked
    ensures session in Next(s, e).rows && Next(s, e).rows[session].revoked
  {}

  /** A session that ended is over for good: in every later run its row stays revoked, a request that reads it, waits
      for it or comes to confirm it fails, and OKK is not asked to renew it. */
  lemma {:induction false} EndedForGood(s: State, events: seq<Event>, session: SessionId)
    requires Runs(s, events) && session in s.rows && s.rows[session].revoked
    ensures var t := After(s, events);
      && session in t.rows && t.rows[session].revoked
      && forall e :: Enabled(t, e) && (e.ReadRow? || e.TakeLock? || e.Confirm?) ==>
           t.requests[e.req].session == session ==>
           Next(t, e).requests[e.req] == Failed(session) && Next(t, e).locks == t.locks
    decreases |events|
  {
    if events != [] {
      RevokedStays(s, events[0], session);
      EndedForGood(Next(s, events[0]), events[1..], session);
    }
  }

  /** The steps at which a request fails. */
  lemma WhatFailsARequest(s: State, e: Event, req: RequestId)
    requires Enabled(s, e) && req in s.requests && !s.requests[req].Failed?
    ensures Next(s, e).requests[req].Failed? <==>
      var active := Active(s, s.requests[req].session);
      || e == MeFailed(req) || e == RecheckFailed(req) || e == StoreFailed(req)
      || (e == ReadRow(req) && !active) || (e == TakeLock(req) && !active)
      || (e.Present? && e.req == req && e.answer != Renewed)
      || (e.Confirm? && e.req == req && !(active && e.samePerson))
  {
    hide Remembered, Current;
  }

  // ---------------------------------------------------------------- when OKK is asked to renew

  /** OKK answered 401 to the access token `sent` of the request. */
  predicate Expired(s: State, e: Event, req: RequestId, session: SessionId, sent: Access) {
    && req in s.requests
    && (|| (e == MeExpired(req) && s.requests[req] == Checking(session, sent))
        || (e == ReadExpired(req) && s.requests[req].Ready? && s.requests[req].session == session
            && Current(s.cache, session, s.requests[req].access) == sent))
  }

  predicate Waits(p: Phase) { p.Queued? || p.Holding? }

  lemma WaitStep(s: State, e: Event, req: RequestId)
    requires Enabled(s, e) && req in Next(s, e).requests && Waits(Next(s, e).requests[req])
    ensures var p := Next(s, e).requests[req];
      || Expired(s, e, req, p.session, p.expired)
      || (req in s.requests && Waits(s.requests[req])
          && s.requests[req].session == p.session && s.requests[req].expired == p.expired)
  {
    hide Remembered, Current;
  }

  lemma {:induction false} WaitTrail(events: seq<Event>, req: RequestId) returns (n: nat)
    requires Runs(INITIAL, events) && req in After(INITIAL, events).requests
    requires Waits(After(INITIAL, events).requests[req])
    ensures n < |events| && Runs(INITIAL, events[..n])
    ensures var p := After(INITIAL, events).requests[req];
      Expired(After(INITIAL, events[..n]), events[n], req, p.session, p.expired)
    decreases |events|
  {
    hide Enabled, Next, Expired;
    n := |events| - 1;
    LastEvent(INITIAL, events);
    var s, p := After(INITIAL, events[..n]), After(INITIAL, events).requests[req];
    WaitStep(s, events[n], req);
    if !Expired(s, events[n], req, p.session, p.expired) {
      var last := n;
      n := WaitTrail(events[..last], req);
      assert events[..last][..n] == events[..n] && events[..last][n] == events[n];
    }
  }

  /** OKK is asked to renew a session only for a request to whose access token it had answered 401, and while
      that very token is still the stored one. */
  lemma RenewedOnlyWhenExpired(events: seq<Event>, req: RequestId, answer: Answer) returns (n: nat)
    requires Runs(INITIAL, events) && Enabled(After(INITIAL, events), Present(req, answer))
    ensures n < |events| && Runs(INITIAL, events[..n])
    ensures var s := After(INITIAL, events); var session := s.requests[req].session;
      && session in s.rows && !s.rows[session].revoked
      && Expired(After(INITIAL, events[..n]), events[n], req, session, s.rows[session].access)
  {
    var s := After(INITIAL, events);
    n := WaitTrail(events, req);
    assert Reachable(s);
    ReachableKeeps(s);
    assert RequestOk(s, req) && LockOk(s, s.requests[req].session);
  }

  /** The stored pair changes only when a renewal is stored, to the pair OKK answered. */
  lemma WhatReplacesThePair(s: State, e: Event, session: SessionId)
    requires Enabled(s, e) && session in s.rows
    ensures var row, later := s.rows[session], Next(s, e).rows;
      && session in later
      && (if e.Store? && s.requests[e.req].session == session then
            later[session].access == s.requests[e.req].access && later[session].refresh == s.requests[e.req].refresh
          else later[session].access == row.access && later[session].refresh == row.refresh)
  {}

  /** A renewal that was stored or found is remembered: a read whose context still has the expired token is
      repeated with the renewed one, and so does not ask for another. */
  lemma RenewalIsRemembered(s: State, e: Event, req: RequestId)
    requires Reachable(s) && Enabled(s, e) && (e == Remember(req) || e == RecheckAccepted(req))
    ensures var p := s.requests[req]; var t := Next(s, e);
      && Current(t.cache, p.session, p.expired) == p.access
      && forall q :: q in t.requests && t.requests[q] == Ready(p.session, p.expired) ==>
           Next(t, ReadExpired(q)).requests[q] == Queued(p.session, p.access, Some(p.expired))
  {
    hide Remembered, Current;
    ReachableKeeps(s);
    var p := s.requests[req];
    RememberedIsSent(s.cache, Renewal(p.session, p.expired, p.access), p.expired);
  }
}
