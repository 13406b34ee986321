/** A user who comes back in time stays signed in. */
module ActiveSessions {
  import opened Basics
  import opened Sessions
  import opened SessionProtocol
  import opened SessionInvariant
  import opened SessionProgress

  /** A request of the user, and when it comes. */
  datatype Visit = Visit(pid: Pid, proc: nat, at: Time)

  /** The request comes, runs to its end at t, and is served a session of this user. */
  ghost predicate ServedAt(cfg: Config, a: Answers, s: State, t: State, id: Id, user: string, v: Visit) {
    && Ends(cfg, a, Next(cfg, Next(cfg, s, Tick(v.at)), Request(v.pid, v.proc, id, false)), t, v.pid)
    && v.pid in t.handlers && t.handlers[v.pid].pc.Done?
    && var result := t.handlers[v.pid].pc.result; result.Some? && result.value.userId == user
  }

  ghost predicate AlwaysServed(cfg: Config, a: Answers, s: State, id: Id, user: string, visits: seq<Visit>)
    decreases |visits|
  {
    visits == [] ||
    exists t :: ServedAt(cfg, a, s, t, id, user, visits[0]) && AlwaysServed(cfg, a, t, id, user, visits[1..])
  }

  /** No visit leaves out the idle timeout, or the store's own, less the time for which activity
      may go unrecorded, and none comes after the absolute lifetime. */
  predicate Regular(cfg: Config, createdAt: Time, from: Time, visits: seq<Visit>)
    decreases |visits|
  {
    visits == [] ||
    var at := visits[0].at;
    && from <= at <= from + Min(cfg.idleTimeout, cfg.sessionTTL) - ACTIVITY_WRITE_INTERVAL
    && (cfg.absoluteLifetime > 0 ==> at < createdAt + cfg.absoluteLifetime)
    && Regular(cfg, createdAt, at, visits[1..])
  }

  /** Every visit is a request of its own. */
  predicate Separate(s: State, visits: seq<Visit>) {
    forall i | 0 <= i < |visits| :: visits[i].pid !in s.handlers && forall j | 0 <= j < i :: visits[j].pid != visits[i].pid
  }

  /** Nobody is refreshing, and the session's lock is free. */
  predicate Resting(s: State, id: Id) {
    s.now > ZERO_TIME && LockFree(s, id) && forall p <- s.handlers :: !s.handlers[p].pc.Refresh?
  }

  /** The entry lasts at least until the first of its limits. */
  predicate Lasts(cfg: Config, e: Entry) {
    || e.expiresAt >= e.sess.lastActivity + cfg.sessionTTL
    || e.expiresAt >= e.sess.lastActivity + cfg.idleTimeout
    || (cfg.absoluteLifetime > 0 && e.expiresAt >= e.sess.createdAt + cfg.absoluteLifetime)
  }

  /** The session is stored, with activity that was recorded not long ago. */
  predicate Kept(cfg: Config, s: State, id: Id, user: string, createdAt: Time) {
    && id in s.store && Lasts(cfg, s.store[id])
    && var x := s.store[id].sess;
    && x.userId == user && x.createdAt == createdAt != ZERO_TIME
    && ZERO_TIME < x.lastActivity <= s.now < x.lastActivity + ACTIVITY_WRITE_INTERVAL
  }

  lemma StillThere(cfg: Config, s: State, id: Id, user: string, createdAt: Time, at: Time)
    requires Kept(cfg, s, id, user, createdAt) && cfg.idleTimeout > 0
    requires s.now <= at <= s.now + Min(cfg.idleTimeout, cfg.sessionTTL) - ACTIVITY_WRITE_INTERVAL
    requires cfg.absoluteLifetime > 0 ==> at < createdAt + cfg.absoluteLifetime
    ensures at <= s.store[id].expiresAt && WithinLimits(cfg, s.store[id].sess, at)
  {
  }

  /** The request has come; its session can be read. */
  lemma Arrives(cfg: Config, s: State, id: Id, v: Visit) returns (t: State)
    requires Resting(s, id) && s.now <= v.at && v.pid !in s.handlers
    ensures t == Next(cfg, Next(cfg, s, Tick(v.at)), Request(v.pid, v.proc, id, false))
    ensures At(t, v.pid, id, Load) && t.now == v.at && t.store == s.store && LockFree(t, id) && NobodyLeads(t, v.pid, id)
    ensures t.handlers == s.handlers[v.pid := t.handlers[v.pid]] && !t.handlers[v.pid].background
  {
    t := Next(cfg, Next(cfg, s, Tick(v.at)), Request(v.pid, v.proc, id, false));
  }

  lemma StaysKept(cfg: Config, sess: Session, resp: Response, due: bool, e: Entry, now: Time)
    requires cfg.idleTimeout > 0 && ZERO_TIME < sess.lastActivity <= now && sess.createdAt != ZERO_TIME
    requires e.sess == WithActivity(cfg, if due then ApplyTokens(sess, resp) else sess, false, now)
    requires e.expiresAt == now + SessionTTLFor(cfg, e.sess, now)
    ensures Lasts(cfg, e)
  {
  }

  lemma ActivityIsRecent(cfg: Config, sess: Session, resp: Response, due: bool, now: Time)
    requires cfg.idleTimeout > 0 && ZERO_TIME < sess.lastActivity <= now
    ensures var x := WithActivity(cfg, if due then ApplyTokens(sess, resp) else sess, false, now);
            && x.userId == sess.userId && x.createdAt == sess.createdAt
            && ZERO_TIME < x.lastActivity <= now < x.lastActivity + ACTIVITY_WRITE_INTERVAL
  {
  }

  /** What a served visit leaves. */
  lemma VisitKeeps(cfg: Config, s: State, u: State, t: State, id: Id, user: string, createdAt: Time, resp: Response)
    requires cfg.idleTimeout > 0 && Kept(cfg, s, id, user, createdAt) && u.store == s.store && s.now <= u.now == t.now
    requires var sess := s.store[id].sess;
             var x := WithActivity(cfg, if NeedsRefresh(cfg, sess, u.now) then ApplyTokens(sess, resp) else sess, false, u.now);
             if x == sess then t.store == u.store else Stores(cfg, u, t, id, x)
    ensures Kept(cfg, t, id, user, createdAt)
  {
    var sess, due := s.store[id].sess, NeedsRefresh(cfg, s.store[id].sess, u.now);
    ActivityIsRecent(cfg, sess, resp, due, u.now);
    hide WithActivity, ApplyTokens, SessionTTLFor, Lasts, NeedsRefresh;
    if WithActivity(cfg, if due then ApplyTokens(sess, resp) else sess, false, u.now) != sess {
      StaysKept(cfg, sess, resp, due, t.store[id], u.now);
    }
  }

  lemma VisitRests(s: State, u: State, t: State, id: Id, v: Visit)
    requires Resting(s, id) && v.pid in u.handlers && u.handlers == s.handlers[v.pid := u.handlers[v.pid]]
    requires t.handlers.Keys == u.handlers.Keys && (forall q <- u.handlers | q != v.pid :: t.handlers[q] == u.handlers[q])
    requires t.handlers[v.pid].pc.Done? && LockFree(t, id) && s.now <= t.now
    ensures Resting(t, id) && t.handlers.Keys == s.handlers.Keys + {v.pid}
  {
    hide LockFree;
  }

  lemma OneVisit(cfg: Config, a: Answers, s: State, id: Id, user: string, createdAt: Time, v: Visit, resp: Response) returns (t: State)
    requires cfg.Valid() && cfg.idleTimeout > 0 && a.exchange == Tokens(resp) && resp.identity.None?
    requires Resting(s, id) && Kept(cfg, s, id, user, createdAt) && v.pid !in s.handlers
    requires s.now <= v.at <= s.now + Min(cfg.idleTimeout, cfg.sessionTTL) - ACTIVITY_WRITE_INTERVAL
    requires cfg.absoluteLifetime > 0 ==> v.at < createdAt + cfg.absoluteLifetime
    ensures ServedAt(cfg, a, s, t, id, user, v) && t.now == v.at
    ensures Resting(t, id) && Kept(cfg, t, id, user, createdAt) && t.handlers.Keys == s.handlers.Keys + {v.pid}
  {
    StillThere(cfg, s, id, user, createdAt, v.at);
    assert Acceptable(s.store[id].sess, resp) && id in s.store && s.now > ZERO_TIME;
    assert cfg.sessionTTL > 0 && LockFree(s, id);
    VisitedUser(cfg, s, id, user, createdAt, resp, v.at);
    hide Next, Ends, WithActivity, ApplyTokens, WithinLimits, SessionTTLFor, Acceptable, LockFree, Kept, Config.Valid;
    var u := Arrives(cfg, s, id, v);
    hide Resting, NobodyLeads;
    t := RequestIsServed(cfg, a, u, v.pid, id, resp);
    hide Stores;
    VisitKeeps(cfg, s, u, t, id, user, createdAt, resp);
    EndsKeepsOthers(cfg, a, u, t, v.pid);
    VisitRests(s, u, t, id, v);
  }

  lemma VisitedUser(cfg: Config, s: State, id: Id, user: string, createdAt: Time, resp: Response, now: Time)
    requires cfg.idleTimeout > 0 && Kept(cfg, s, id, user, createdAt) && s.now <= now
    ensures var sess, due := s.store[id].sess, NeedsRefresh(cfg, s.store[id].sess, now);
            WithActivity(cfg, if due then ApplyTokens(sess, resp) else sess, false, now).userId == user
  {
    ActivityIsRecent(cfg, s.store[id].sess, resp, NeedsRefresh(cfg, s.store[id].sess, now), now);
    hide WithActivity, ApplyTokens, Lasts, NeedsRefresh;
  }

  lemma EndsKeepsOthers(cfg: Config, a: Answers, s: State, t: State, p: Pid)
    requires Ends(cfg, a, s, t, p) && p in s.handlers
    ensures t.handlers.Keys == s.handlers.Keys && forall q <- s.handlers | q != p :: t.handlers[q] == s.handlers[q]
  {
    hide Drive;
    var n: nat :| RestsFrom(cfg, a, s, t, p, n);
    assert Drive(cfg, a, s, p, n) == t;
    DriveKeepsHandlers(cfg, a, s, p, n);
  }

  lemma {:induction false} VisitsAreServed(cfg: Config, a: Answers, s: State, id: Id, user: string, createdAt: Time,
                                           visits: seq<Visit>, resp: Response)
    requires cfg.Valid() && cfg.idleTimeout > 0 && a.exchange == Tokens(resp) && resp.identity.None?
    requires Resting(s, id) && Kept(cfg, s, id, user, createdAt)
    requires Separate(s, visits) && Regular(cfg, createdAt, s.now, visits)
    ensures AlwaysServed(cfg, a, s, id, user, visits)
    decreases |visits|
  {
    hide ServedAt, Resting, Kept, Config.Valid;
    if visits != [] {
      var t := OneVisit(cfg, a, s, id, user, createdAt, visits[0], resp);
      assert Separate(t, visits[1..]) by {
        forall i | 0 <= i < |visits[1..]| ensures visits[1..][i].pid !in t.handlers { assert visits[i + 1].pid != visits[0].pid; }
      }
      VisitsAreServed(cfg, a, t, id, user, createdAt, visits[1..], resp);
    }
  }

  lemma SignInIsKept(cfg: Config, s: State, e: Event) returns (t: State)
    requires cfg.Valid() && e.SignIn? && Resting(s, e.id) && e.pid !in s.handlers && e.id !in s.issued
    ensures t == Next(cfg, Next(cfg, s, e), Run(e.pid, Go)) && t.now == s.now
    ensures t.handlers.Keys == s.handlers.Keys + {e.pid}
    ensures Resting(t, e.id) && Kept(cfg, t, e.id, e.subject, s.now)
  {
    t := Next(cfg, Next(cfg, s, e), Run(e.pid, Go));
  }

  /** A user who signs in and then comes back, each time at most the idle timeout less a minute after
      the time before, is served a session of theirs at every visit until the absolute lifetime
      ends, through any number of token refreshes. */
  lemma RegularVisitsStaySignedIn(cfg: Config, a: Answers, s: State, e: Event, visits: seq<Visit>, resp: Response)
    requires cfg.Valid() && cfg.idleTimeout > 0 && a.exchange == Tokens(resp) && resp.identity.None?
    requires e.SignIn? && Resting(s, e.id) && e.pid !in s.handlers && e.id !in s.issued
    requires Separate(s, visits) && (forall v <- visits :: v.pid != e.pid) && Regular(cfg, s.now, s.now, visits)
    ensures AlwaysServed(cfg, a, Next(cfg, Next(cfg, s, e), Run(e.pid, Go)), e.id, e.subject, visits)
  {
    hide AlwaysServed, Resting, Kept, Regular, Config.Valid, Next;
    var t := SignInIsKept(cfg, s, e);
    assert Separate(t, visits);
    VisitsAreServed(cfg, a, t, e.id, e.subject, s.now, visits, resp);
  }
}
