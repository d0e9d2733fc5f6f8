/** Renewing the OKK session of a person while any number of requests run: `live_context`,
    `_rotate_session`, `_read` and `revoke_upstream` of server/okk_mcp/platform_client.py, split at every
    point where another request can come between, with OKK itself as a part of the state. */
module Rotation {
  import opened Common
  import opened RenewalCache

  type RequestId = nat

  /** The session row. */
  datatype Row = Row(access: Access, refresh: Refresh, revoked: bool)

  /** OKK's own view: the last pair it issued, and whether the session still lives. */
  datatype Upstream = Upstream(latest: nat, alive: bool)

  /** What `POST /auth/refresh` did: issued a pair and answered it; issued a pair whose answer never
      arrived; failed before it did anything; issued a pair but answered something unusable; refused. */
  datatype Answer = Renewed | Lost | NotReached | Unusable | Refused

  datatype Presentation = Presentation(refresh: Refresh, answer: Answer)

  /** Where a request is. `home` is the context token of a read that met a 401, none for `live_context`. */
  datatype Phase =
    | Opened(session: SessionId)
    | Checking(session: SessionId, access: Access)
    | Queued(session: SessionId, expired: Access, home: Option<Access>)
    | Holding(session: SessionId, expired: Access, home: Option<Access>)
    | Answered(session: SessionId, expired: Access, home: Option<Access>, access: Access, refresh: Refresh)
    | Stored(session: SessionId, expired: Access, home: Option<Access>, access: Access)
    | Rechecking(session: SessionId, expired: Access, home: Option<Access>, access: Access)
    | Confirming(session: SessionId, access: Access)
    | Ready(session: SessionId, access: Access)
    | Failed(session: SessionId)

  datatype State = State(
    rows: map<SessionId, Row>,
    okk: map<SessionId, Upstream>,
    locks: map<SessionId, RequestId>,
    requests: map<RequestId, Phase>,
    cache: seq<Renewal>,
    log: seq<Presentation>,
    lost: set<Refresh>)

  const INITIAL: State := State(map[], map[], map[], map[], [], [], {})

  datatype Event =
    | SignIn(session: SessionId)
    | Open(req: RequestId, session: SessionId)
    | ReadRow(req: RequestId)
    | MeAccepted(req: RequestId)
    | MeExpired(req: RequestId)
    | MeFailed(req: RequestId)
    | TakeLock(req: RequestId)
    | Present(req: RequestId, answer: Answer)
    | Store(req: RequestId)
    | StoreFailed(req: RequestId)
    | Remember(req: RequestId)
    | RecheckAccepted(req: RequestId)
    | RecheckFailed(req: RequestId)
    | Confirm(req: RequestId, samePerson: bool)
    | ReadExpired(req: RequestId)
    | Logout(session: SessionId)

  function Move(s: State, req: RequestId, p: Phase): State {
    s.(requests := s.requests[req := p])
  }

  /** The request goes on with a usable token: a read repeats with it, `live_context` confirms the user. */
  function Resume(session: SessionId, home: Option<Access>, access: Access): Phase {
    if home.Some? then Ready(session, home.value) else Confirming(session, access)
  }

  /** The row is there and not revoked. */
  predicate Active(s: State, session: SessionId) {
    session in s.rows && !s.rows[session].revoked
  }

  predicate At(s: State, req: RequestId) {
    req in s.requests
  }

  /** The lock is only taken, or only waited for, by a request in its turn. */
  predicate Enabled(s: State, e: Event) {
    match e
    case SignIn(session) => session !in s.rows && session !in s.okk
    case Open(req, session) => req !in s.requests
    case ReadRow(req) => At(s, req) && s.requests[req].Opened?
    case MeAccepted(req) => At(s, req) && s.requests[req].Checking?
    case MeExpired(req) => At(s, req) && s.requests[req].Checking?
    case MeFailed(req) => At(s, req) && s.requests[req].Checking?
    case TakeLock(req) => At(s, req) && s.requests[req].Queued? && s.requests[req].session !in s.locks
    case Present(req, answer) =>
      && At(s, req) && s.requests[req].Holding? && s.requests[req].session in s.rows && s.requests[req].session in s.okk
      && (answer.Renewed? || answer.Lost? || answer.Unusable? ==>
            var session := s.requests[req].session;
            s.okk[session].alive && s.rows[session].refresh == Refresh(session, s.okk[session].latest))
    case Store(req) => At(s, req) && s.requests[req].Answered? && s.requests[req].session in s.rows
    case StoreFailed(req) => At(s, req) && s.requests[req].Answered? && s.requests[req].session in s.rows
    case Remember(req) => At(s, req) && s.requests[req].Stored?
    case RecheckAccepted(req) => At(s, req) && s.requests[req].Rechecking?
    case RecheckFailed(req) => At(s, req) && s.requests[req].Rechecking?
    case Confirm(req, _) => At(s, req) && s.requests[req].Confirming? && s.requests[req].session !in s.locks
    case ReadExpired(req) => At(s, req) && s.requests[req].Ready?
    case Logout(session) => session !in s.locks
  }

  /** `_rotate_session` on the locked row: compare, then either hold on to refresh or let go. */
  function TakeLockStep(s: State, req: RequestId, p: Phase): State
    requires p.Queued?
  {
    if !Active(s, p.session) then Move(s, req, Failed(p.session))
    else if s.rows[p.session].access == p.expired then
      Move(s, req, Holding(p.session, p.expired, p.home)).(locks := s.locks[p.session := req])
    else Move(s, req, Rechecking(p.session, p.expired, p.home, s.rows[p.session].access))
  }

  /** `_refresh` under the lock. A token OKK already replaced ends the session at OKK. */
  function PresentStep(s: State, req: RequestId, p: Phase, answer: Answer): State
    requires p.Holding? && p.session in s.rows && p.session in s.okk
  {
    var row, up := s.rows[p.session], s.okk[p.session];
    var next := up.latest + 1;
    var logged := s.(log := s.log + [Presentation(row.refresh, answer)]);
    match answer
    case Renewed =>
      Move(logged, req, Answered(p.session, p.expired, p.home, Access(p.session, next), Refresh(p.session, next)))
        .(okk := s.okk[p.session := up.(latest := next)])
    case Lost =>
      Move(logged, req, Failed(p.session))
        .(okk := s.okk[p.session := up.(latest := next)], locks := s.locks - {p.session},
          lost := s.lost + {row.refresh})
    case NotReached =>
      Move(logged, req, Failed(p.session)).(locks := s.locks - {p.session})
    case Unusable =>
      Move(logged, req, Failed(p.session))
        .(okk := s.okk[p.session := up.(latest := next)], locks := s.locks - {p.session},
          rows := s.rows[p.session := row.(revoked := true)])
    case Refused =>
      Move(logged, req, Failed(p.session))
        .(okk := s.okk[p.session := up.(alive := false)], locks := s.locks - {p.session},
          rows := s.rows[p.session := row.(revoked := true)])
  }

  function Next(s: State, e: Event): State
    requires Enabled(s, e)
  {
    match e
    case SignIn(session) =>
      s.(rows := s.rows[session := Row(Access(session, 0), Refresh(session, 0), false)],
         okk := s.okk[session := Upstream(0, true)])
    case Open(req, session) => Move(s, req, Opened(session))
    case ReadRow(req) =>
      var session := s.requests[req].session;
      Move(s, req, if Active(s, session) then Checking(session, s.rows[session].access) else Failed(session))
    case MeAccepted(req) => Move(s, req, Confirming(s.requests[req].session, s.requests[req].access))
    case MeExpired(req) => Move(s, req, Queued(s.requests[req].session, s.requests[req].access, None))
    case MeFailed(req) => Move(s, req, Failed(s.requests[req].session))
    case TakeLock(req) => TakeLockStep(s, req, s.requests[req])
    case Present(req, answer) => PresentStep(s, req, s.requests[req], answer)
    case Store(req) =>
      var p := s.requests[req];
      Move(s, req, Stored(p.session, p.expired, p.home, p.access))
        .(rows := s.rows[p.session := s.rows[p.session].(access := p.access, refresh := p.refresh)],
          locks := s.locks - {p.session})
    case StoreFailed(req) =>
      var p := s.requests[req];
      Move(s, req, Failed(p.session)).(locks := s.locks - {p.session}, lost := s.lost + {s.rows[p.session].refresh})
    case Remember(req) =>
      var p := s.requests[req];
      Move(s, req, Resume(p.session, p.home, p.access))
        .(cache := Remembered(s.cache, Renewal(p.session, p.expired, p.access)))
    case RecheckAccepted(req) =>
      var p := s.requests[req];
      Move(s, req, Resume(p.session, p.home, p.access))
        .(cache := Remembered(s.cache, Renewal(p.session, p.expired, p.access)))
    case RecheckFailed(req) => Move(s, req, Failed(s.requests[req].session))
    case Confirm(req, samePerson) =>
      var p := s.requests[req];
      if !Active(s, p.session) then Move(s, req, Failed(p.session))
      else if !samePerson then
        Move(s, req, Failed(p.session)).(rows := s.rows[p.session := s.rows[p.session].(revoked := true)])
      else Move(s, req, Ready(p.session, p.access))
    case ReadExpired(req) =>
      var p := s.requests[req];
      Move(s, req, Queued(p.session, Current(s.cache, p.session, p.access), Some(p.access)))
    case Logout(session) =>
      if session in s.rows then s.(rows := s.rows[session := s.rows[session].(revoked := true)]) else s
  }

  ghost predicate Runs(s: State, events: seq<Event>)
    decreases |events|
  {
    events == [] || (Enabled(s, events[0]) && Runs(Next(s, events[0]), events[1..]))
  }

  ghost function After(s: State, events: seq<Event>): State
    requires Runs(s, events)
    decreases |events|
  {
    if events == [] then s else After(Next(s, events[0]), events[1..])
  }

  ghost predicate Reachable(s: State) {
    exists events :: Runs(INITIAL, events) && After(INITIAL, events) == s
  }

  // ---------------------------------------------------------------- the invariant

  /** A token the server has stored for the session, now or before. */
  predicate Known(s: State, session: SessionId, a: Access) {
    session in s.rows && a.session == session && a.issue <= s.rows[session].access.issue
  }

  predicate HomeKnown(s: State, session: SessionId, home: Option<Access>) {
    home.Some? ==> Known(s, session, home.value)
  }

  /** The lock holder has OKK's new pair in hand and has not stored it. */
  predicate InHand(s: State, session: SessionId) {
    session in s.locks && s.locks[session] in s.requests && s.requests[s.locks[session]].Answered?
  }

  /** The stored access and refresh token belong to one pair. Unless the answer to it was lost, or the
      session is revoked, that pair is OKK's latest, or the one before while the latest is in hand. */
  predicate RowOk(s: State, session: SessionId)
    requires session in s.rows
  {
    var row := s.rows[session];
    && session in s.okk
    && row.access == Access(session, row.refresh.issue) && row.refresh.session == session
    && row.refresh.issue <= s.okk[session].latest
    && (InHand(s, session) ==> s.okk[session].latest == row.refresh.issue + 1)
    && (!row.revoked && row.refresh !in s.lost && !InHand(s, session) ==> s.okk[session].latest == row.refresh.issue)
    && (row.refresh in s.lost ==> row.refresh.issue < s.okk[session].latest && !InHand(s, session))
  }

  predicate LockOk(s: State, session: SessionId)
    requires session in s.locks
  {
    var req := s.locks[session];
    && Active(s, session) && req in s.requests
    && (s.requests[req].Holding? || s.requests[req].Answered?)
    && s.requests[req].session == session
  }

  predicate RequestOk(s: State, req: RequestId)
    requires req in s.requests
  {
    match s.requests[req]
    case Opened(session) => true
    case Checking(session, a) => Known(s, session, a)
    case Queued(session, e, home) => Known(s, session, e) && HomeKnown(s, session, home)
    case Holding(session, e, home) =>
      && session in s.locks && s.locks[session] == req && session in s.rows && s.rows[session].access == e
      && HomeKnown(s, session, home)
    case Answered(session, e, home, a, r) =>
      && session in s.locks && s.locks[session] == req && session in s.rows && s.rows[session].access == e
      && session in s.okk && a == Access(session, s.okk[session].latest) && r == Refresh(session, s.okk[session].latest)
      && HomeKnown(s, session, home)
    case Stored(session, e, home, a) =>
      Known(s, session, a) && e.session == session && e.issue < a.issue && HomeKnown(s, session, home)
    case Rechecking(session, e, home, a) =>
      Known(s, session, a) && e.session == session && e.issue < a.issue && HomeKnown(s, session, home)
    case Confirming(session, a) => Known(s, session, a)
    case Ready(session, a) => Known(s, session, a)
    case Failed(session) => true
  }

  predicate RenewalOk(s: State, r: Renewal) {
    Known(s, r.session, r.renewed) && r.expired.session == r.session && r.expired.issue < r.renewed.issue
  }

  /** What an answer means for the presented token from then on: it can be stored again as the current
      token only if OKK never acted on it or its answer was lost. */
  predicate LoggedOk(s: State, p: Presentation) {
    var session := p.refresh.session;
    && session in s.rows && session in s.okk
    && p.refresh.issue <= s.rows[session].refresh.issue
    && (p.answer.Renewed? || p.answer.Lost? || p.answer.Unusable? ==> p.refresh.issue < s.okk[session].latest)
    && (p.answer.Renewed? ==>
          p.refresh in s.lost || p.refresh.issue < s.rows[session].refresh.issue || InHand(s, session))
    && (p.answer.Lost? ==> p.refresh in s.lost)
    && (p.answer.Unusable? || p.answer.Refused? ==> s.rows[session].revoked)
  }

  /** Two presentations of one token: the first never reached OKK's rotation or its answer was lost. */
  predicate PairOk(s: State, a: Presentation, b: Presentation) {
    a.refresh == b.refresh ==>
      && (a.answer.NotReached? || a.refresh in s.lost)
      && !(a.answer.Renewed? && b.answer.Renewed?)
  }

  ghost predicate Inv(s: State) {
    && (forall i {:trigger RowOk(s, i)} :: i in s.rows ==> RowOk(s, i))
    && s.okk.Keys == s.rows.Keys
    && (forall i {:trigger LockOk(s, i)} :: i in s.locks ==> LockOk(s, i))
    && (forall r {:trigger RequestOk(s, r)} :: r in s.requests ==> RequestOk(s, r))
    && (forall r {:trigger r in s.lost} :: r in s.lost ==> r.session in s.okk && r.issue < s.okk[r.session].latest)
    && Distinct(s.cache) && |s.cache| <= RENEWALS_KEPT
    && (forall r {:trigger RenewalOk(s, r)} :: r in s.cache ==> RenewalOk(s, r))
    && (forall i {:trigger s.log[i]} :: 0 <= i < |s.log| ==> LoggedOk(s, s.log[i]))
    && (forall i, j {:trigger s.log[i], s.log[j]} :: 0 <= i < j < |s.log| ==> PairOk(s, s.log[i], s.log[j]))
  }

  // ---------------------------------------------------------------- preservation

  /** Steps that move one request and touch neither rows, OKK, locks, log nor losses. */
  lemma MoveKeeps(s: State, req: RequestId, p: Phase)
    requires Inv(s)
    requires req in s.requests ==> !s.requests[req].Holding? && !s.requests[req].Answered?
    requires !p.Holding? && !p.Answered? && RequestOk(Move(s, req, p), req)
    ensures Inv(Move(s, req, p))
  {
    var t := Move(s, req, p);
    forall i | i in t.locks ensures LockOk(t, i) { assert LockOk(s, i); }
    forall i | i in t.rows ensures RowOk(t, i) && (InHand(t, i) <==> InHand(s, i)) {
      assert RowOk(s, i);
      if i in s.locks { assert LockOk(s, i); }
    }
    forall r | r in t.requests ensures RequestOk(t, r) { if r != req { assert RequestOk(s, r); } }
    forall r | r in t.cache ensures RenewalOk(t, r) { assert RenewalOk(s, r); }
    forall i | 0 <= i < |t.log| ensures LoggedOk(t, t.log[i]) { assert LoggedOk(s, s.log[i]); }
    forall i, j | 0 <= i < j < |t.log| ensures PairOk(t, t.log[i], t.log[j]) { assert PairOk(s, s.log[i], s.log[j]); }
  }

  lemma RememberKeeps(s: State, r: Renewal)
    requires Inv(s) && RenewalOk(s, r)
    ensures Inv(s.(cache := Remembered(s.cache, r)))
  {
    var t := s.(cache := Remembered(s.cache, r));
    RememberedKeeps(s.cache, r);
    forall i | i in t.rows ensures RowOk(t, i) { assert RowOk(s, i); }
    forall i | i in t.locks ensures LockOk(t, i) { assert LockOk(s, i); }
    forall q | q in t.requests ensures RequestOk(t, q) { assert RequestOk(s, q); }
    forall x | x in t.cache ensures RenewalOk(t, x) { if x != r { assert RenewalOk(s, x); } }
    forall i | 0 <= i < |t.log| ensures LoggedOk(t, t.log[i]) { assert LoggedOk(s, s.log[i]); }
    forall i, j | 0 <= i < j < |t.log| ensures PairOk(t, t.log[i], t.log[j]) { assert PairOk(s, s.log[i], s.log[j]); }
  }

  /** Revoking an unlocked row. */
  lemma RevokeKeeps(s: State, session: SessionId)
    requires Inv(s) && session in s.rows && session !in s.locks
    ensures Inv(s.(rows := s.rows[session := s.rows[session].(revoked := true)]))
  {
    var t := s.(rows := s.rows[session := s.rows[session].(revoked := true)]);
    forall i | i in t.rows ensures RowOk(t, i) { assert RowOk(s, i); }
    forall i | i in t.locks ensures LockOk(t, i) { assert LockOk(s, i); }
    forall q | q in t.requests ensures RequestOk(t, q) { assert RequestOk(s, q); }
    forall x | x in t.cache ensures RenewalOk(t, x) { assert RenewalOk(s, x); }
    forall i | 0 <= i < |t.log| ensures LoggedOk(t, t.log[i]) { assert LoggedOk(s, s.log[i]); }
    forall i, j | 0 <= i < j < |t.log| ensures PairOk(t, t.log[i], t.log[j]) { assert PairOk(s, s.log[i], s.log[j]); }
  }

  lemma SignInKeeps(s: State, session: SessionId)
    requires Inv(s) && Enabled(s, SignIn(session))
    ensures Inv(Next(s, SignIn(session)))
  {
    var t := Next(s, SignIn(session));
    forall i | i in t.locks ensures LockOk(t, i) && i != session { assert LockOk(s, i); }
    forall i | i in t.rows ensures RowOk(t, i) { if i != session { assert RowOk(s, i); } }
    forall q | q in t.requests ensures RequestOk(t, q) { assert RequestOk(s, q); }
    forall x | x in t.cache ensures RenewalOk(t, x) { assert RenewalOk(s, x); }
    forall i | 0 <= i < |t.log| ensures LoggedOk(t, t.log[i]) { assert LoggedOk(s, s.log[i]); }
    forall i, j | 0 <= i < j < |t.log| ensures PairOk(t, t.log[i], t.log[j]) { assert PairOk(s, s.log[i], s.log[j]); }
  }

  lemma HoldKeeps(s: State, req: RequestId)
    requires Inv(s) && Enabled(s, TakeLock(req))
    requires Active(s, s.requests[req].session) && s.rows[s.requests[req].session].access == s.requests[req].expired
    ensures Inv(Next(s, TakeLock(req)))
  {
    var t := Next(s, TakeLock(req));
    assert RequestOk(s, req);
    forall i | i in t.locks ensures LockOk(t, i) { if i in s.locks { assert LockOk(s, i); } }
    forall i | i in t.rows ensures RowOk(t, i) && (InHand(t, i) <==> InHand(s, i)) {
      assert RowOk(s, i);
      if i in s.locks { assert LockOk(s, i); }
    }
    forall r | r in t.requests ensures RequestOk(t, r) { if r != req { assert RequestOk(s, r); } }
    forall r | r in t.cache ensures RenewalOk(t, r) { assert RenewalOk(s, r); }
    forall i | 0 <= i < |t.log| ensures LoggedOk(t, t.log[i]) { assert LoggedOk(s, s.log[i]); }
    forall i, j | 0 <= i < j < |t.log| ensures PairOk(t, t.log[i], t.log[j]) { assert PairOk(s, s.log[i], s.log[j]); }
  }

  /** What is the same for every answer: the lock holder presents the stored token. */
  lemma Holder(s: State, req: RequestId, answer: Answer)
    requires Inv(s) && Enabled(s, Present(req, answer))
    ensures var session := s.requests[req].session;
      && Active(s, session) && session in s.okk && session in s.locks && s.locks[session] == req
      && RowOk(s, session) && !InHand(s, session)
  {
    var session := s.requests[req].session;
    assert RequestOk(s, req);
    assert LockOk(s, session);
    assert RowOk(s, session);
  }

  /** The new log entry against the older ones. */
  lemma PresentLog(s: State, req: RequestId, answer: Answer)
    requires Inv(s) && Enabled(s, Present(req, answer))
    ensures var t := Next(s, Present(req, answer));
      && (forall i :: 0 <= i < |t.log| ==> LoggedOk(t, t.log[i]))
      && (forall i, j :: 0 <= i < j < |t.log| ==> PairOk(t, t.log[i], t.log[j]))
  {
    var t := Next(s, Present(req, answer));
    var session := s.requests[req].session;
    Holder(s, req, answer);
    assert t.log == s.log + [Presentation(s.rows[session].refresh, answer)];
    forall i | 0 <= i < |t.log| ensures LoggedOk(t, t.log[i]) {
      if i < |s.log| {
        assert t.log[i] == s.log[i];
        assert LoggedOk(s, s.log[i]);
        var other := s.log[i].refresh.session;
        if other in s.locks { assert LockOk(s, other); }
      }
    }
    forall i, j | 0 <= i < j < |t.log| ensures PairOk(t, t.log[i], t.log[j]) {
      assert t.log[i] == s.log[i] && LoggedOk(s, s.log[i]);
      if j < |s.log| {
        assert t.log[j] == s.log[j];
        assert PairOk(s, s.log[i], s.log[j]);
      }
    }
  }

  lemma PresentRows(s: State, req: RequestId, answer: Answer, i: SessionId)
    requires Inv(s) && Enabled(s, Present(req, answer)) && i in Next(s, Present(req, answer)).rows
    ensures RowOk(Next(s, Present(req, answer)), i)
  {
    hide LoggedOk, PairOk, RenewalOk;
    Holder(s, req, answer);
    assert RequestOk(s, req);
    assert RowOk(s, i);
    if i in s.locks { assert LockOk(s, i); }
  }

  lemma PresentRequests(s: State, req: RequestId, answer: Answer, r: RequestId)
    requires Inv(s) && Enabled(s, Present(req, answer)) && r in Next(s, Present(req, answer)).requests
    ensures RequestOk(Next(s, Present(req, answer)), r)
  {
    hide LoggedOk, PairOk, RenewalOk, RowOk;
    Holder(s, req, answer);
    assert RequestOk(s, req);
    assert RequestOk(s, r);
  }

  lemma PresentRest(s: State, req: RequestId, answer: Answer)
    requires Inv(s) && Enabled(s, Present(req, answer))
    ensures var t := Next(s, Present(req, answer));
      && (forall i :: i in t.rows ==> RowOk(t, i))
      && (forall i :: i in t.locks ==> LockOk(t, i))
      && (forall r :: r in t.requests ==> RequestOk(t, r))
      && (forall r :: r in t.cache ==> RenewalOk(t, r))
  {
    hide LoggedOk, PairOk, RequestOk, RowOk;
    var t := Next(s, Present(req, answer));
    Holder(s, req, answer);
    forall i | i in t.locks ensures LockOk(t, i) { assert LockOk(s, i); }
    forall i | i in t.rows ensures RowOk(t, i) { PresentRows(s, req, answer, i); }
    forall r | r in t.requests ensures RequestOk(t, r) { PresentRequests(s, req, answer, r); }
    forall r | r in t.cache ensures RenewalOk(t, r) { assert RenewalOk(s, r); }
  }

  lemma PresentKeeps(s: State, req: RequestId, answer: Answer)
    requires Inv(s) && Enabled(s, Present(req, answer))
    ensures Inv(Next(s, Present(req, answer)))
  {
    Holder(s, req, answer);
    PresentLog(s, req, answer);
    PresentRest(s, req, answer);
  }

  lemma StoreRows(s: State, req: RequestId, e: Event, i: SessionId)
    requires Inv(s) && (e == Store(req) || e == StoreFailed(req)) && Enabled(s, e) && i in Next(s, e).rows
    ensures RowOk(Next(s, e), i) && (i != s.requests[req].session ==> (InHand(Next(s, e), i) <==> InHand(s, i)))
  {
    hide LoggedOk, PairOk, RenewalOk;
    assert RequestOk(s, req) && LockOk(s, s.requests[req].session) && RowOk(s, s.requests[req].session);
    assert RowOk(s, i);
    if i in s.locks { assert LockOk(s, i); }
  }

  lemma StoreRequests(s: State, req: RequestId, e: Event, r: RequestId)
    requires Inv(s) && (e == Store(req) || e == StoreFailed(req)) && Enabled(s, e) && r in Next(s, e).requests
    ensures RequestOk(Next(s, e), r)
  {
    hide LoggedOk, PairOk, RenewalOk;
    assert RequestOk(s, req) && LockOk(s, s.requests[req].session) && RowOk(s, s.requests[req].session);
    assert RequestOk(s, r);
  }

  lemma StoreKeeps(s: State, req: RequestId, e: Event)
    requires Inv(s) && (e == Store(req) || e == StoreFailed(req)) && Enabled(s, e)
    ensures Inv(Next(s, e))
  {
    var t := Next(s, e);
    var session := s.requests[req].session;
    assert RequestOk(s, req) && LockOk(s, session) && RowOk(s, session) && InHand(s, session);
    forall i | i in t.locks ensures LockOk(t, i) { assert LockOk(s, i); }
    forall i | i in t.rows
      ensures RowOk(t, i) && (i != session ==> (InHand(t, i) <==> InHand(s, i)))
    {
      StoreRows(s, req, e, i);
    }
    forall r | r in t.requests ensures RequestOk(t, r) { StoreRequests(s, req, e, r); }
    forall r | r in t.cache ensures RenewalOk(t, r) { assert RenewalOk(s, r); }
    forall i | 0 <= i < |t.log| ensures LoggedOk(t, t.log[i]) { assert LoggedOk(s, s.log[i]); }
    forall i, j | 0 <= i < j < |t.log| ensures PairOk(t, t.log[i], t.log[j]) { assert PairOk(s, s.log[i], s.log[j]); }
  }

  lemma StepKeeps(s: State, e: Event)
    requires Inv(s) && Enabled(s, e)
    ensures Inv(Next(s, e))
  {
    hide LoggedOk, PairOk, LockOk;
    match e
    case SignIn(session) => SignInKeeps(s, session);
    case Open(req, session) => MoveKeeps(s, req, Opened(session));
    case TakeLock(req) =>
      var p := s.requests[req];
      assert RequestOk(s, req);
      if Active(s, p.session) && s.rows[p.session].access == p.expired {
        HoldKeeps(s, req);
      } else {
        if Active(s, p.session) { assert RowOk(s, p.session); }
        MoveKeeps(s, req, TakeLockStep(s, req, p).requests[req]);
      }
    case Present(req, answer) => PresentKeeps(s, req, answer);
    case Store(req) => StoreKeeps(s, req, e);
    case StoreFailed(req) => StoreKeeps(s, req, e);
    case Remember(req) => ResumeKeeps(s, req);
    case RecheckAccepted(req) => ResumeKeeps(s, req);
    case Confirm(req, samePerson) =>
      var p := s.requests[req];
      assert RequestOk(s, req);
      if Active(s, p.session) && !samePerson {
        MoveKeeps(s, req, Failed(p.session));
        RevokeKeeps(Move(s, req, Failed(p.session)), p.session);
      } else {
        MoveKeeps(s, req, Next(s, e).requests[req]);
      }
    case ReadExpired(req) =>
      var p := s.requests[req];
      assert RequestOk(s, req);
      CurrentIsHeldOrRenewed(s.cache, p.session, p.access);
      var a := Current(s.cache, p.session, p.access);
      if a != p.access { assert RenewalOk(s, Renewal(p.session, p.access, a)); }
      MoveKeeps(s, req, Queued(p.session, a, Some(p.access)));
    case Logout(session) => if session in s.rows { RevokeKeeps(s, session); }
    case _ =>
      assert RequestOk(s, e.req);
      assert s.requests[e.req].session in s.rows ==> RowOk(s, s.requests[e.req].session);
      MoveKeeps(s, e.req, Next(s, e).requests[e.req]);
  }

  lemma ResumeKeeps(s: State, req: RequestId)
    requires Inv(s) && req in s.requests && (s.requests[req].Stored? || s.requests[req].Rechecking?)
    ensures var p := s.requests[req];
      Inv(Move(s, req, Resume(p.session, p.home, p.access))
        .(cache := Remembered(s.cache, Renewal(p.session, p.expired, p.access))))
  {
    var p := s.requests[req];
    assert RequestOk(s, req);
    MoveKeeps(s, req, Resume(p.session, p.home, p.access));
    var t := Move(s, req, Resume(p.session, p.home, p.access));
    assert RenewalOk(t, Renewal(p.session, p.expired, p.access));
    RememberKeeps(t, Renewal(p.session, p.expired, p.access));
  }

  lemma {:induction false} RunKeeps(s: State, events: seq<Event>)
    requires Inv(s) && Runs(s, events)
    ensures Inv(After(s, events))
    decreases |events|
  {
    if events != [] {
      StepKeeps(s, events[0]);
      RunKeeps(Next(s, events[0]), events[1..]);
    }
  }

  lemma ReachableKeeps(s: State)
    requires Reachable(s)
    ensures Inv(s)
  {
    var events :| Runs(INITIAL, events) && After(INITIAL, events) == s;
    RunKeeps(INITIAL, events);
  }

  // ---------------------------------------------------------------- the promises

  /** In every interleaving of any number of requests: if one refresh token is presented to OKK twice,
      the earlier presentation did nothing at OKK or its answer was lost on the way; and OKK never
      answers two presentations of one token with a new pair. */
  lemma NoTokenSpentTwice(s: State, i: nat, j: nat)
    requires Reachable(s) && i < j < |s.log| && s.log[i].refresh == s.log[j].refresh
    ensures s.log[i].answer.NotReached? || s.log[i].refresh in s.lost
    ensures !(s.log[i].answer.Renewed? && s.log[j].answer.Renewed?)
  {
    ReachableKeeps(s);
    assert PairOk(s, s.log[i], s.log[j]);
  }

  /** The stored access and refresh token are OKK's current pair. */
  predicate CurrentPair(s: State, session: SessionId) {
    && session in s.rows && session in s.okk
    && s.rows[session].access == Access(session, s.okk[session].latest)
    && s.rows[session].refresh == Refresh(session, s.okk[session].latest)
  }

  /** While the session is usable and no request has a newer pair in hand under the lock, the stored pair
      is OKK's current one exactly when the answer that replaced its refresh token was not lost. */
  lemma StoredPairIsCurrent(s: State, session: SessionId)
    requires Reachable(s) && Active(s, session) && !InHand(s, session)
    ensures CurrentPair(s, session) <==> s.rows[session].refresh !in s.lost
  {
    ReachableKeeps(s);
    assert RowOk(s, session);
  }

  /** A request that gets the lock after another one renewed the token sends nothing to OKK's refresh:
      it takes the stored token, which is newer than the one it found expired. */
  lemma LoserTakesTheRenewedToken(s: State, req: RequestId)
    requires Reachable(s) && Enabled(s, TakeLock(req)) && Active(s, s.requests[req].session)
    requires s.rows[s.requests[req].session].access != s.requests[req].expired
    ensures var p := s.requests[req]; var t := Next(s, TakeLock(req));
      && t.requests[req] == Rechecking(p.session, p.expired, p.home, s.rows[p.session].access)
      && p.expired.issue < s.rows[p.session].access.issue
      && t.log == s.log && t.locks == s.locks && Enabled(t, RecheckAccepted(req))
      && Next(t, RecheckAccepted(req)).log == s.log
  {
    ReachableKeeps(s);
    assert RequestOk(s, req);
    assert RowOk(s, s.requests[req].session);
  }

  /** Substitution only moves forward: a held token is sent as it is or as a later one of its session,
      and the cache stays within its bound. */
  lemma SubstitutionMovesForward(s: State, req: RequestId)
    requires Reachable(s) && req in s.requests && s.requests[req].Ready?
    ensures var p := s.requests[req]; var sent := Current(s.cache, p.session, p.access);
      sent == p.access || (sent.session == p.session && p.access.issue < sent.issue)
    ensures |s.cache| <= RENEWALS_KEPT
  {
    ReachableKeeps(s);
    var p := s.requests[req];
    CurrentIsHeldOrRenewed(s.cache, p.session, p.access);
    if Current(s.cache, p.session, p.access) != p.access {
      assert RenewalOk(s, Renewal(p.session, p.access, Current(s.cache, p.session, p.access)));
    }
  }

  // ---------------------------------------------------------------- the assumption about OKK

  /** OKK replaced a token and its answer did not come to be stored. */
  predicate Loses(e: Event) {
    (e.Present? && e.answer.Lost?) || e.StoreFailed?
  }

  lemma {:induction false} NothingLost(s: State, events: seq<Event>)
    requires Runs(s, events) && s.lost == {} && forall i :: 0 <= i < |events| ==> !Loses(events[i])
    ensures After(s, events).lost == {}
    decreases |events|
  {
    if events != [] {
      assert !Loses(events[0]);
      NothingLost(Next(s, events[0]), events[1..]);
    }
  }

  /** When OKK fails only before it replaces a token, no replaced token is ever presented again and the
      stored pair of a usable session is OKK's current pair outside the locked section. */
  lemma RotationIsSafe(events: seq<Event>)
    requires Runs(INITIAL, events) && forall i :: 0 <= i < |events| ==> !Loses(events[i])
    ensures var s := After(INITIAL, events);
      && (forall i, j :: 0 <= i < j < |s.log| && s.log[i].refresh == s.log[j].refresh ==> s.log[i].answer == NotReached)
      && (forall session :: Active(s, session) && !InHand(s, session) ==> CurrentPair(s, session))
  {
    var s := After(INITIAL, events);
    NothingLost(INITIAL, events);
    assert Reachable(s);
    forall i, j | 0 <= i < j < |s.log| && s.log[i].refresh == s.log[j].refresh ensures s.log[i].answer == NotReached {
      NoTokenSpentTwice(s, i, j);
    }
    forall session | Active(s, session) && !InHand(s, session) ensures CurrentPair(s, session) {
      StoredPairIsCurrent(s, session);
    }
  }

  /** The assumption is needed: after a lost answer the stored token can only be refused. */
  lemma LostAnswerIsFatal(s: State, req: RequestId, answer: Answer)
    requires Reachable(s) && Enabled(s, Present(req, answer)) && s.rows[s.requests[req].session].refresh in s.lost
    ensures answer.NotReached? || (answer.Refused? && !Active(Next(s, Present(req, answer)), s.requests[req].session))
  {
    ReachableKeeps(s);
    assert RowOk(s, s.requests[req].session);
  }

  ghost predicate Reaches(events: seq<Event>, s: State) {
    Runs(INITIAL, events) && After(INITIAL, events) == s
  }

  lemma {:induction false} RunThenStep(s: State, events: seq<Event>, e: Event)
    requires Runs(s, events) && Enabled(After(s, events), e)
    ensures Runs(s, events + [e]) && After(s, events + [e]) == Next(After(s, events), e)
    decreases |events|
  {
    if events == [] {
      assert [e][1..] == [] && events + [e] == [e];
    } else {
      assert (events + [e])[1..] == events[1..] + [e];
      RunThenStep(Next(s, events[0]), events[1..], e);
    }
  }

  /** A new request finds the stored token of session 0 expired and gets the lock. */
  lemma Contend(events: seq<Event>, s: State, req: RequestId) returns (more: seq<Event>)
    requires Reaches(events, s) && Active(s, 0) && 0 !in s.locks && req !in s.requests
    ensures Reaches(more, Move(s, req, Holding(0, s.rows[0].access, None)).(locks := s.locks[0 := req]))
  {
    hide Runs, After;
    var a := s.rows[0].access;
    RunThenStep(INITIAL, events, Open(req, 0));
    var s1 := Move(s, req, Opened(0));
    more := events + [Open(req, 0)];
    assert Reaches(more, s1);
    RunThenStep(INITIAL, more, ReadRow(req));
    more := more + [ReadRow(req)];
    var s2 := Move(s, req, Checking(0, a));
    assert Next(s1, ReadRow(req)) == s2;
    RunThenStep(INITIAL, more, MeExpired(req));
    more := more + [MeExpired(req)];
    var s3 := Move(s, req, Queued(0, a, None));
    assert Next(s2, MeExpired(req)) == s3;
    RunThenStep(INITIAL, more, TakeLock(req));
    more := more + [TakeLock(req)];
    assert Next(s3, TakeLock(req)) == Move(s, req, Holding(0, a, None)).(locks := s.locks[0 := req]);
  }

  /** Two requests and one lost answer: OKK is shown one token twice and the session is over. */
  lemma LostAnswerShowsOneTokenTwice() returns (events: seq<Event>)
    ensures Runs(INITIAL, events)
    ensures var s := After(INITIAL, events);
      |s.log| == 2 && s.log[0].refresh == s.log[1].refresh && s.log[0].answer.Lost? && !Active(s, 0)
  {
    assert Reaches([], INITIAL);
    RunThenStep(INITIAL, [], SignIn(0));
    events := [] + [SignIn(0)];
    var signedIn := Next(INITIAL, SignIn(0));
    events := Contend(events, signedIn, 1);
    var held := After(INITIAL, events);
    RunThenStep(INITIAL, events, Present(1, Lost));
    events := events + [Present(1, Lost)];
    var lost := Next(held, Present(1, Lost));
    events := Contend(events, lost, 2);
    RunThenStep(INITIAL, events, Present(2, Refused));
    events := events + [Present(2, Refused)];
  }
}
