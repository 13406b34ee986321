/** Which response, or which sign-in, named the provider session that a stored version has. */
module SessionIdentity {
  import opened Basics
  import opened Sessions
  import opened SessionProtocol
  import opened SessionInvariant

  /** The provider session a response names, if it names one. */
  function SidOf(resp: Response): string {
    if resp.identity.Some? then resp.identity.value.claims.sid else ""
  }

  /** The provider session named by what the k-th version goes back to: over recorded activity to
      the version before, over a response that names none to the version it was applied to. */
  function NamedSid(hs: seq<Write>, k: nat): string
    requires k < |hs|
  {
    match hs[k].how
    case Created => hs[k].sess.sid
    case Activity => if k == 0 then hs[0].sess.sid else NamedSid(hs, k - 1)
    case Refreshed(from, resp) =>
      var base := from.version - hs[0].sess.version;
      if SidOf(resp) != "" then SidOf(resp)
      else if 0 <= base < k then NamedSid(hs, base)
      else from.sid
  }

  /** What a refresh makes of each part of a session. The tokens are the response's, but the refresh
      token stays where the response has none. Without an ID token nothing else changes. With
      one, its text and claims are taken over; its provider session where it names one; and
      when and how the user signed in where it says when. */
  lemma RefreshedParts(current: Session, resp: Response)
    ensures var u := ApplyTokens(current, resp);
            && u.version == current.version + 1 && u.userId == current.userId && u.createdAt == current.createdAt
            && u.lastActivity == current.lastActivity && u.attributes == current.attributes
            && u.access == resp.access && u.expiry == resp.expiry
            && (resp.refresh == "" ==> u.refresh == current.refresh) && (resp.refresh != "" ==> u.refresh == resp.refresh)
            && match resp.identity
               case None =>
                 u.claims == current.claims && u.idToken == current.idToken && u.sid == current.sid
                 && u.authTime == current.authTime && u.amr == current.amr
               case Some(id) =>
                 && u.claims == id.claims && u.idToken == id.raw
                 && (id.claims.sid == "" ==> u.sid == current.sid) && (id.claims.sid != "" ==> u.sid == id.claims.sid)
                 && (id.claims.authTime == ZERO_TIME ==> u.authTime == current.authTime && u.amr == current.amr)
                 && (id.claims.authTime != ZERO_TIME ==> u.authTime == id.claims.authTime && u.amr == id.claims.amr)
  {
  }

  lemma AppliedSid(u: Session, from: Session, resp: Response)
    requires Applied(u, from, resp)
    ensures u.sid == if SidOf(resp) != "" then SidOf(resp) else from.sid
  {
  }

  /** Every version has the provider session named by what it goes back to. */
  lemma {:induction false} SidIsNamed(hs: seq<Write>, k: nat)
    requires Chain(hs) && k < |hs|
    ensures hs[k].sess.sid == NamedSid(hs, k)
    decreases k
  {
    hide Later, Applied;
    if k > 0 {
      assert Link(hs[k - 1].sess, hs[k]);
      match hs[k].how
      case Created =>
      case Activity => SidIsNamed(hs, k - 1);
      case Refreshed(from, resp) =>
        AppliedSid(hs[k].sess, from, resp);
        assert hs[k].sess.version == hs[0].sess.version + k && Recorded(hs, from);
        SidIsNamed(hs, from.version - hs[0].sess.version);
    } else {
      assert hs[0].how.Refreshed? ==> Recorded(hs, hs[0].how.from);
    }
  }

  // ---- where no response is applied over another one ----

  /** From version n on, a response was applied to a version with the provider session of the one it
      replaced; so it is wherever a redeemed refresh token is not accepted twice. */
  predicate StraightFrom(hs: seq<Write>, n: nat) {
    forall k | n < k < |hs| && hs[k].how.Refreshed? :: hs[k].how.from.sid == hs[k - 1].sess.sid
  }

  /** The last provider session a response named after the n-th version, if one did. */
  function LastSid(hs: seq<Write>, n: nat): Option<string> {
    if |hs| <= n + 1 then None
    else if hs[|hs| - 1].how.Refreshed? && SidOf(hs[|hs| - 1].how.resp) != "" then Some(SidOf(hs[|hs| - 1].how.resp))
    else LastSid(hs[..|hs| - 1], n)
  }

  /** Then the provider session is the last one a response named, or else the one there was. */
  lemma {:induction false} SidSince(hs: seq<Write>, n: nat)
    requires Linked(hs) && n < |hs| && StraightFrom(hs, n)
    ensures Latest(hs).sid == if LastSid(hs, n).Some? then LastSid(hs, n).value else hs[n].sess.sid
    decreases |hs|
  {
    hide Later, Applied;
    var last := |hs| - 1;
    if n < last {
      var most := hs[..last];
      assert forall k | 0 <= k < last :: most[k] == hs[k];
      SidSince(most, n);
      assert Link(hs[last - 1].sess, hs[last]);
      assert hs[last].how.Refreshed? ==> hs[last].how.from.sid == hs[last - 1].sess.sid;
      if hs[last].how.Refreshed? { AppliedSid(hs[last].sess, hs[last].how.from, hs[last].how.resp); }
    }
  }
}
