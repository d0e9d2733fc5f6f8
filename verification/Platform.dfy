/** The platform client as code: each method is what one request does between two points where another
    request can run, on the shared rows, row locks and renewal memory. OKK's side is ghost. */
module Platform {
  import opened Common
  import opened RenewalCache
  import opened Rotation

  class OkkPlatformClient {
    const renewals: Renewals
    var rows: map<SessionId, Row>
    var locks: map<SessionId, RequestId>
    /** The local variables of the requests that run. */
    var requests: map<RequestId, Phase>
    ghost var okk: map<SessionId, Upstream>
    ghost var log: seq<Presentation>
    ghost var lost: set<Refresh>

    ghost function View(): State
      reads this, renewals
    {
      State(rows, okk, locks, requests, renewals.entries, log, lost)
    }

    constructor ()
      ensures View() == INITIAL && renewals.Valid() && fresh(renewals)
    {
      renewals := new Renewals();
      rows, locks, requests, okk, log, lost := map[], map[], map[], map[], [], {};
    }

    /** `live_context`: the first read of the session row, without a lock. */
    method ReadSession(req: RequestId)
      requires Enabled(View(), ReadRow(req))
      modifies this`requests
      ensures View() == Next(old(View()), ReadRow(req))
    {
      var session := requests[req].session;
      if session !in rows || rows[session].revoked {
        requests := requests[req := Failed(session)];
        return;
      }
      requests := requests[req := Checking(session, rows[session].access)];
    }

    /** `_rotate_session` up to the comparison with the token the request found expired. */
    method LockAndCompare(req: RequestId)
      requires Enabled(View(), TakeLock(req))
      modifies this`requests, this`locks
      ensures View() == Next(old(View()), TakeLock(req))
    {
      var p := requests[req];
      if p.session !in rows || rows[p.session].revoked {
        requests := requests[req := Failed(p.session)];
        return;
      }
      var current := rows[p.session].access;
      if current == p.expired {
        locks := locks[p.session := req];
        requests := requests[req := Holding(p.session, p.expired, p.home)];
      } else {
        requests := requests[req := Rechecking(p.session, p.expired, p.home, current)];
      }
    }

    /** `_refresh` under the lock: an answered pair (OKK's `issued`-th) is kept in hand, an outage lets go
        of the lock, a refusal revokes the row first. */
    method RefreshUpstream(req: RequestId, answer: Answer, issued: nat)
      requires Enabled(View(), Present(req, answer)) && issued == okk[requests[req].session].latest + 1
      modifies this
      ensures View() == Next(old(View()), Present(req, answer))
    {
      var p := requests[req];
      var row := rows[p.session];
      log := log + [Presentation(row.refresh, answer)];
      match answer {
        case Renewed =>
          okk := okk[p.session := okk[p.session].(latest := issued)];
          requests := requests[req := Answered(p.session, p.expired, p.home, Access(p.session, issued),
                                               Refresh(p.session, issued))];
          return;
        case Lost =>
          okk := okk[p.session := okk[p.session].(latest := issued)];
          lost := lost + {row.refresh};
        case NotReached =>
        case Unusable =>
          okk := okk[p.session := okk[p.session].(latest := issued)];
          rows := rows[p.session := row.(revoked := true)];
        case Refused =>
          okk := okk[p.session := okk[p.session].(alive := false)];
          rows := rows[p.session := row.(revoked := true)];
      }
      locks := locks - {p.session};
      requests := requests[req := Failed(p.session)];
    }

    /** The commit that stores the renewed pair and lets go of the row. */
    method StoreRenewal(req: RequestId)
      requires Enabled(View(), Store(req))
      modifies this`rows, this`locks, this`requests
      ensures View() == Next(old(View()), Store(req))
    {
      var p := requests[req];
      rows := rows[p.session := rows[p.session].(access := p.access)];
      rows := rows[p.session := rows[p.session].(refresh := p.refresh)];
      locks := locks - {p.session};
      requests := requests[req := Stored(p.session, p.expired, p.home, p.access)];
    }

    /** `_remember_renewal`, after the commit or after the renewed token of another request was checked,
        and the way back to the caller. */
    method RememberAndReturn(req: RequestId)
      requires renewals.Valid() && req in requests && (requests[req].Stored? || requests[req].Rechecking?)
      modifies this`requests, renewals
      ensures renewals.Valid()
      ensures old(requests)[req].Stored? ==> View() == Next(old(View()), Remember(req))
      ensures old(requests)[req].Rechecking? ==> View() == Next(old(View()), RecheckAccepted(req))
    {
      ghost var s := View();
      var p := requests[req];
      renewals.RememberRenewal(p.session, p.expired, p.access);
      requests := requests[req :=
        if p.home.Some? then Ready(p.session, p.home.value) else Confirming(p.session, p.access)];
      assert View() == Move(s, req, Resume(p.session, p.home, p.access)).(cache := renewals.entries);
    }

    /** The last transaction of `live_context`: the session must still be there, for the same person. */
    method ConfirmUser(req: RequestId, samePerson: bool)
      requires Enabled(View(), Confirm(req, samePerson))
      modifies this`rows, this`requests
      ensures View() == Next(old(View()), Confirm(req, samePerson))
    {
      var p := requests[req];
      if p.session !in rows || rows[p.session].revoked {
        requests := requests[req := Failed(p.session)];
        return;
      }
      if !samePerson {
        rows := rows[p.session := rows[p.session].(revoked := true)];
        requests := requests[req := Failed(p.session)];
        return;
      }
      requests := requests[req := Ready(p.session, p.access)];
    }

    /** `_read` that met a 401 with the token it substituted. */
    method ReadMetExpiry(req: RequestId)
      requires renewals.Valid() && Enabled(View(), ReadExpired(req))
      modifies this`requests
      ensures View() == Next(old(View()), ReadExpired(req))
    {
      var p := requests[req];
      var sent := renewals.CurrentAccess(p.session, p.access);
      requests := requests[req := Queued(p.session, sent, Some(p.access))];
    }

    /** The local half of `revoke_upstream`; a locked row makes it wait. */
    method RevokeUpstream(session: SessionId)
      requires Enabled(View(), Logout(session))
      modifies this`rows
      ensures View() == Next(old(View()), Logout(session))
    {
      if session !in rows || rows[session].revoked {
        return;
      }
      rows := rows[session := rows[session].(revoked := true)];
    }
  }
}
