/** The session value and the pure decisions taken on it: when tokens need a
    refresh, when a lifetime limit is reached, how long a session may be stored
    and how a token response is applied.

    Times are integers (milliseconds) and 0 is the zero time. A secret is its
    text; "" stands for an absent one, because every reader gets a clone in which
    an empty refresh or ID token is nil. */
module Sessions {
  import opened Basics

  const ZERO_TIME: Time := 0
  const REFRESH_TIMEOUT := 30_000
  const ACTIVITY_WRITE_INTERVAL := 60_000
  const MAX_ACTIVITY_MERGE_ATTEMPTS: nat := 3

  datatype Claims = Claims(sid: string, amr: seq<string>, authTime: Time, others: map<string, string>)

  datatype Session = Session(
    userId: string, access: string, refresh: string, idToken: string, expiry: Time,
    claims: Claims, sid: string, authTime: Time, amr: seq<string>,
    createdAt: Time, lastActivity: Time, attributes: map<string, string>, version: nat)

  /** The client's options; a zero lifetime or idle timeout is off. `locker` says
      whether the store implements RefreshLocker. */
  datatype Config = Config(
    sessionTTL: int, absoluteLifetime: int, idleTimeout: int,
    refreshEnabled: bool, refreshLeeway: int, outageGrace: int, lockWait: int, locker: bool)
  {
    /** What the option constructors enforce. */
    predicate Valid() {
      && sessionTTL > 0 && absoluteLifetime >= 0 && idleTimeout >= 0
      && refreshLeeway >= 0 && outageGrace >= 0 && lockWait > 0
    }
  }

  /** A verified ID token that came with a token response. */
  datatype Identity = Identity(raw: string, subject: string, claims: Claims)

  datatype Response = Response(access: string, refresh: string, expiry: Time, identity: Option<Identity>)

  predicate NeedsRefresh(cfg: Config, sess: Session, now: Time) {
    && cfg.refreshEnabled
    && sess.refresh != ""
    && sess.expiry != ZERO_TIME
    && now + cfg.refreshLeeway >= sess.expiry
  }

  /** The reference time of the idle timeout. */
  function LastActivity(sess: Session): Time {
    if sess.lastActivity != ZERO_TIME then sess.lastActivity else sess.createdAt
  }

  predicate LifetimeExceeded(cfg: Config, sess: Session, now: Time) {
    || (cfg.absoluteLifetime > 0 &&
        (sess.createdAt == ZERO_TIME || now >= sess.createdAt + cfg.absoluteLifetime))
    || (cfg.idleTimeout > 0 &&
        (LastActivity(sess) == ZERO_TIME || now >= LastActivity(sess) + cfg.idleTimeout))
  }

  function SessionTTLFor(cfg: Config, sess: Session, now: Time): int {
    var ttl := if cfg.absoluteLifetime > 0
               then Min(cfg.sessionTTL, sess.createdAt + cfg.absoluteLifetime - now)
               else cfg.sessionTTL;
    if cfg.idleTimeout > 0 then Min(ttl, LastActivity(sess) + cfg.idleTimeout - now) else ttl
  }

  /** Refuses a response whose ID token names somebody else. */
  predicate Acceptable(current: Session, resp: Response) {
    resp.identity.Some? ==> resp.identity.value.subject == current.userId
  }

  /** The refreshed session, one version above the one that was refreshed. */
  function ApplyTokens(current: Session, resp: Response): Session {
    var s := current.(access := resp.access, expiry := resp.expiry,
                      refresh := if resp.refresh != "" then resp.refresh else current.refresh,
                      version := current.version + 1);
    if resp.identity.None? then s else
      var id := resp.identity.value;
      var t := s.(claims := id.claims, idToken := id.raw,
                  sid := if id.claims.sid != "" then id.claims.sid else s.sid);
      if id.claims.authTime != ZERO_TIME then t.(authTime := id.claims.authTime, amr := id.claims.amr) else t
  }

  predicate OnlyActivityChanged(refreshed: Session, latest: Session) {
    latest.userId == refreshed.userId && latest.refresh == refreshed.refresh
  }

  /** The session a login callback creates. */
  function NewSession(subject: string, resp: Response, idToken: string, claims: Claims,
                      attributes: map<string, string>, now: Time): Session {
    Session(subject, resp.access, resp.refresh, idToken, resp.expiry, claims, claims.sid,
            claims.authTime, claims.amr, now, now, attributes, 0)
  }
}
