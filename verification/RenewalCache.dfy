/** The process-local memory of renewed access tokens: server/okk_mcp/platform_client.py,
    `_remember_renewal` and `_current_access`. */
module RenewalCache {

  type SessionId = nat

  /** The access and the refresh token OKK issued to a session in its `issue`-th pair. OKK never issues
      one token twice, so a token is its session and its place; the code only compares them. */
  datatype Access = Access(session: SessionId, issue: nat)
  datatype Refresh = Refresh(session: SessionId, issue: nat)

  datatype Renewal = Renewal(session: SessionId, expired: Access, renewed: Access)

  const RENEWALS_KEPT: nat := 1000

  /** The dictionary in insertion order, each session once. */
  ghost predicate Distinct(cache: seq<Renewal>) {
    forall i, j :: 0 <= i < j < |cache| ==> cache[i].session != cache[j].session
  }

  function Without(cache: seq<Renewal>, session: SessionId): (rest: seq<Renewal>)
    ensures forall r :: r in rest <==> r in cache && r.session != session
    ensures |rest| <= |cache|
  {
    if cache == [] then []
    else if cache[0].session == session then Without(cache[1..], session)
    else [cache[0]] + Without(cache[1..], session)
  }

  /** The cache after one renewal is remembered: it becomes the newest entry of its session and the
      oldest entry goes when there are too many. */
  function Remembered(cache: seq<Renewal>, r: Renewal): seq<Renewal> {
    var all := Without(cache, r.session) + [r];
    if |all| > RENEWALS_KEPT then all[1..] else all
  }

  /** The token a request with the context token `held` sends. */
  function Current(cache: seq<Renewal>, session: SessionId, held: Access): (token: Access)
    decreases |cache|
  {
    if cache == [] then held
    else if cache[0].session == session && cache[0].expired == held then cache[0].renewed
    else Current(cache[1..], session, held)
  }

  lemma {:induction false} WithoutKeepsDistinct(cache: seq<Renewal>, session: SessionId)
    requires Distinct(cache)
    ensures Distinct(Without(cache, session))
    ensures |Without(cache, session)| == |cache| - (if exists r :: r in cache && r.session == session then 1 else 0)
  {
    if i :| 0 <= i < |cache| && cache[i].session == session {
      WithoutFound(cache, session, i);
      assert cache[i] in cache;
    } else {
      WithoutAbsent(cache, session);
    }
  }

  /** Remembering keeps each session once and the cache within its bound; the renewal just remembered is
      there, and of the other sessions at most the oldest entry is lost. */
  lemma RememberedKeeps(cache: seq<Renewal>, r: Renewal)
    requires Distinct(cache) && |cache| <= RENEWALS_KEPT
    ensures Distinct(Remembered(cache, r)) && |Remembered(cache, r)| <= RENEWALS_KEPT
    ensures r in Remembered(cache, r)
    ensures forall x :: x in Remembered(cache, r) ==> x == r || (x in cache && x.session != r.session)
    ensures forall i :: 1 <= i < |cache| && cache[i].session != r.session ==> cache[i] in Remembered(cache, r)
  {
    hide Without;
    WithoutKeepsDistinct(cache, r.session);
    var kept := Without(cache, r.session);
    assert forall x :: x in kept ==> x in cache && x.session != r.session;
    assert (kept + [r])[|kept|] == r;
    forall i | 1 <= i < |cache| && cache[i].session != r.session ensures cache[i] in Remembered(cache, r) {
      assert cache[i] in kept;
      if |kept| == RENEWALS_KEPT {
        OldestStaysFirst(cache, r.session);
        assert cache[0].session != cache[i].session;
        assert cache[i] in kept[1..];
        assert (kept + [r])[1..] == kept[1..] + [r];
      }
    }
  }

  lemma OldestStaysFirst(cache: seq<Renewal>, session: SessionId)
    requires cache != [] && Distinct(cache) && |Without(cache, session)| == |cache|
    ensures Without(cache, session)[0] == cache[0]
  {
    WithoutKeepsDistinct(cache, session);
    assert cache[0] in cache;
  }

  /** The substituted token is the held one or what the cache says replaced it. */
  lemma {:induction false} CurrentIsHeldOrRenewed(cache: seq<Renewal>, session: SessionId, held: Access)
    ensures Current(cache, session, held) == held ||
      Renewal(session, held, Current(cache, session, held)) in cache
  {
    if cache != [] && !(cache[0].session == session && cache[0].expired == held) {
      CurrentIsHeldOrRenewed(cache[1..], session, held);
    }
  }

  lemma {:induction false} WithoutFound(cache: seq<Renewal>, session: SessionId, i: nat)
    requires Distinct(cache) && i < |cache| && cache[i].session == session
    ensures Without(cache, session) == cache[..i] + cache[i + 1..]
  {
    var rest := cache[1..];
    if i == 0 {
      WithoutAbsent(rest, session);
      assert cache[..0] + rest == rest;
    } else {
      WithoutFound(rest, session, i - 1);
      AllButOne(cache, i);
    }
  }

  lemma AllButOne(cache: seq<Renewal>, i: nat)
    requires 0 < i < |cache|
    ensures cache[..i] + cache[i + 1..] == [cache[0]] + (cache[1..][..i - 1] + cache[1..][i..])
  {
  }

  lemma {:induction false} WithoutAbsent(cache: seq<Renewal>, session: SessionId)
    requires forall i :: 0 <= i < |cache| ==> cache[i].session != session
    ensures Without(cache, session) == cache
  {
    if cache != [] { WithoutAbsent(cache[1..], session); }
  }

  lemma {:induction false} CurrentFound(cache: seq<Renewal>, session: SessionId, held: Access, i: nat)
    requires Distinct(cache) && i < |cache| && cache[i].session == session
    ensures Current(cache, session, held) == if cache[i].expired == held then cache[i].renewed else held
  {
    if i == 0 {
      CurrentAbsent(cache[1..], session, held);
    } else {
      CurrentFound(cache[1..], session, held, i - 1);
    }
  }

  lemma {:induction false} CurrentAbsent(cache: seq<Renewal>, session: SessionId, held: Access)
    requires forall i :: 0 <= i < |cache| ==> cache[i].session != session
    ensures Current(cache, session, held) == held
  {
    if cache != [] { CurrentAbsent(cache[1..], session, held); }
  }

  /** Right after a renewal is remembered its expired token is sent as the renewed one, and any other token of the
      session as it is. */
  lemma RememberedIsSent(cache: seq<Renewal>, r: Renewal, held: Access)
    requires Distinct(cache) && |cache| <= RENEWALS_KEPT
    ensures Current(Remembered(cache, r), r.session, held) == if held == r.expired then r.renewed else held
  {
    hide Remembered;
    RememberedKeeps(cache, r);
    var i :| 0 <= i < |Remembered(cache, r)| && Remembered(cache, r)[i] == r;
    CurrentFound(Remembered(cache, r), r.session, held, i);
  }

  /** `_renewed_access`: a dictionary that remembers the order of insertion. */
  class Renewals {
    var entries: seq<Renewal>

    ghost predicate Valid()
      reads this
    {
      Distinct(entries) && |entries| <= RENEWALS_KEPT
    }

    constructor ()
      ensures Valid() && entries == []
    {
      entries := [];
    }

    /** The place of a session's entry, or the length of the dictionary. */
    method Find(session: SessionId) returns (i: nat)
      ensures i <= |entries| && (i < |entries| ==> entries[i].session == session)
      ensures forall j :: 0 <= j < i ==> entries[j].session != session
    {
      i := 0;
      while i < |entries| && entries[i].session != session
        invariant i <= |entries|
        invariant forall j :: 0 <= j < i ==> entries[j].session != session
      {
        i := i + 1;
      }
    }

    method RememberRenewal(session: SessionId, expired: Access, renewed: Access)
      requires Valid()
      modifies this
      ensures entries == Remembered(old(entries), Renewal(session, expired, renewed)) && Valid()
    {
      RememberedKeeps(entries, Renewal(session, expired, renewed));
      var i := Find(session);
      if i < |entries| {
        WithoutFound(entries, session, i);
        entries := entries[..i] + entries[i + 1..];
      } else {
        WithoutAbsent(entries, session);
      }
      entries := entries + [Renewal(session, expired, renewed)];
      if |entries| > RENEWALS_KEPT {
        entries := entries[1..];
      }
    }

    method CurrentAccess(session: SessionId, held: Access) returns (token: Access)
      requires Valid()
      ensures token == Current(entries, session, held)
    {
      var i := Find(session);
      if i < |entries| {
        CurrentFound(entries, session, held, i);
        token := if held == entries[i].expired then entries[i].renewed else held;
      } else {
        CurrentAbsent(entries, session, held);
        token := held;
      }
    }
  }
}
