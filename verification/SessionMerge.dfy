/** Re-applying refreshed tokens after a lost compare-and-set: when the merge writes what a
    refresh of the stored session would have written. */
module SessionMerge {
  import opened Basics
  import opened Sessions
  import opened SessionProtocol
  import opened SessionInvariant

  /** The identity a response does not replace is the same in both sessions. */
  predicate IdentityAgrees(current: Session, latest: Session, resp: Response) {
    var id := resp.identity;
    && (id.None? ==> latest.claims == current.claims && latest.idToken == current.idToken)
    && (id.None? || id.value.claims.sid == "" ==> latest.sid == current.sid)
    && (id.None? || id.value.claims.authTime == ZERO_TIME ==>
          latest.authTime == current.authTime && latest.amr == current.amr)
  }

  /** The session a merge onto `latest` writes. */
  function Merged(current: Session, latest: Session, resp: Response): Session {
    Rebase(Job(ApplyTokens(current, resp), resp, 0, 0, current.version, 0), latest).updated
  }

  lemma MergedParts(current: Session, latest: Session, resp: Response)
    requires Later(current, latest)
    ensures Merged(current, latest, resp) ==
            ApplyTokens(current, resp).(lastActivity := latest.lastActivity, version := latest.version + 1)
  {
  }

  /** Onto a later session with the same refresh token, the merge is a refresh of that session
      exactly when the two agree on the identity the response leaves alone. */
  lemma MergeIsRefreshIff(current: Session, latest: Session, resp: Response)
    requires Later(current, latest) && OnlyActivityChanged(current, latest)
    ensures Merged(current, latest, resp) == ApplyTokens(latest, resp) <==> IdentityAgrees(current, latest, resp)
  {
    MergedParts(current, latest, resp);
    hide Merged, LastActivity;
  }

  /** The versions of a history after the first n are recorded activity. */
  predicate OnlyActivityAfter(hs: seq<Write>, n: nat) {
    forall i :: n < i < |hs| ==> hs[i].how.Activity?
  }

  lemma {:induction false} ActivityKeepsRest(hs: seq<Write>, n: nat, m: nat)
    requires Chain(hs) && n <= m < |hs| && OnlyActivityAfter(hs, n)
    ensures hs[m].sess == hs[n].sess.(lastActivity := hs[m].sess.lastActivity, version := hs[m].sess.version)
    ensures Later(hs[n].sess, hs[m].sess)
    decreases m
  {
    if n < m {
      ActivityKeepsRest(hs, n, m - 1);
      assert Link(hs[m - 1].sess, hs[m]);
    }
  }

  /** Over a stretch of the version chain that only recorded activity, the merge is a refresh. */
  lemma MergeOverActivity(hs: seq<Write>, n: nat, resp: Response)
    requires Chain(hs) && n < |hs| && OnlyActivityAfter(hs, n)
    ensures OnlyActivityChanged(hs[n].sess, Latest(hs))
    ensures Merged(hs[n].sess, Latest(hs), resp) == ApplyTokens(Latest(hs), resp)
  {
    ActivityKeepsRest(hs, n, |hs| - 1);
    MergeIsRefreshIff(hs[n].sess, Latest(hs), resp);
  }
}
