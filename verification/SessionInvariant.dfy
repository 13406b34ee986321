/** What every step of the session protocol keeps. */
module SessionInvariant {
  import opened Basics
  import opened Sessions
  import opened SessionProtocol

  // ---- the chain of versions stored under one id ----

  /** b was stored at or after a. */
  predicate Later(a: Session, b: Session) {
    && a.version <= b.version
    && a.userId == b.userId && a.createdAt == b.createdAt && a.attributes == b.attributes
    && a.lastActivity <= b.lastActivity && LastActivity(a) <= LastActivity(b)
    && (LastActivity(a) != ZERO_TIME ==> LastActivity(b) != ZERO_TIME)
  }

  /** u is what a response makes of a session, but for activity and version. */
  predicate Applied(u: Session, from: Session, resp: Response) {
    u == ApplyTokens(from, resp).(lastActivity := u.lastActivity, version := u.version)
  }

  /** w may follow a: recorded activity and nothing else, or a response obtained by redeeming
      the refresh token a holds, applied to a version that held it too, with a's recorded
      activity. */
  predicate Link(a: Session, w: Write) {
    var b := w.sess;
    && b.version == a.version + 1
    && Later(a, b)
    && match w.how
       case Created => false
       case Activity =>
         && b == a.(lastActivity := b.lastActivity, version := b.version)
         && b.lastActivity >= LastActivity(a) + ACTIVITY_WRITE_INTERVAL
       case Refreshed(from, resp) =>
         && from.refresh == a.refresh != "" && Acceptable(a, resp) && Applied(b, from, resp)
         && b.access == resp.access && b.expiry == resp.expiry
         && b.refresh == (if resp.refresh != "" then resp.refresh else a.refresh)
         && b.lastActivity == a.lastActivity
  }

  /** Versions count up, and nothing that a sign-in fixed changes. */
  predicate InOrder(hs: seq<Write>) {
    forall i, j | 0 <= i <= j < |hs| ::
      Later(hs[i].sess, hs[j].sess) && hs[j].sess.version == hs[i].sess.version + (j - i)
  }

  predicate Linked(hs: seq<Write>) {
    forall k | 0 < k < |hs| :: Link(hs[k - 1].sess, hs[k])
  }

  /** What a response was applied to was stored before. */
  predicate Grounded(hs: seq<Write>) {
    forall k | 0 <= k < |hs| && hs[k].how.Refreshed? ::
      Recorded(hs, hs[k].how.from) && hs[k].how.from.version < hs[k].sess.version
  }

  predicate Chain(hs: seq<Write>) { InOrder(hs) && Linked(hs) && Grounded(hs) }

  function Latest(hs: seq<Write>): Session
    requires hs != []
  {
    hs[|hs| - 1].sess
  }

  predicate HasVersion(hs: seq<Write>, version: nat) {
    hs != [] && hs[0].sess.version <= version < hs[0].sess.version + |hs|
  }

  function Version(hs: seq<Write>, version: nat): Session
    requires HasVersion(hs, version)
  {
    hs[version - hs[0].sess.version].sess
  }

  /** v is exactly what was stored under its version. */
  predicate Recorded(hs: seq<Write>, v: Session) {
    HasVersion(hs, v.version) && Version(hs, v.version) == v
  }

  predicate AllRecorded(hs: seq<Write>, v: Option<Session>) {
    v.Some? ==> Recorded(hs, v.value)
  }

  lemma LaterStill(a: Session, b: Session, c: Session)
    requires Later(a, b) && Later(b, c)
    ensures Later(a, c)
  {
  }

  lemma LinkIsLater(a: Session, w: Write)
    requires Link(a, w)
    ensures Later(a, w.sess) && w.sess.version == a.version + 1
  {
  }

  lemma LaterThanItself(a: Session)
    ensures Later(a, a)
  {
  }

  lemma OrderExtends(hs: seq<Write>, w: Write)
    requires InOrder(hs) && hs != [] && Later(Latest(hs), w.sess) && w.sess.version == Latest(hs).version + 1
    ensures InOrder(hs + [w])
  {
    var more, last := hs + [w], |hs|;
    LaterThanItself(w.sess);
    forall i, j | 0 <= i <= j < |more| ensures Later(more[i].sess, more[j].sess) && more[j].sess.version == more[i].sess.version + (j - i) {
      if i < last == j { LaterStill(hs[i].sess, hs[last - 1].sess, w.sess); }
    }
  }

  lemma GroundExtends(hs: seq<Write>, w: Write)
    requires Grounded(hs) && InOrder(hs) && hs != [] && w.sess.version == Latest(hs).version + 1
    requires w.how.Refreshed? ==> Recorded(hs, w.how.from)
    ensures Grounded(hs + [w]) && Recorded(hs + [w], w.sess)
  {
    hide Later;
    var more, last := hs + [w], |hs|;
    assert hs[last - 1].sess.version == hs[0].sess.version + (last - 1);
    forall k | 0 <= k < |more| && more[k].how.Refreshed?
      ensures Recorded(more, more[k].how.from) && more[k].how.from.version < more[k].sess.version
    {
      assert Recorded(hs, more[k].how.from);
    }
  }

  lemma ChainExtends(hs: seq<Write>, w: Write)
    requires Chain(hs)
    requires hs != [] ==> Link(Latest(hs), w)
    requires w.how.Refreshed? ==> Recorded(hs, w.how.from)
    ensures Chain(hs + [w]) && Recorded(hs + [w], w.sess)
  {
    if hs == [] {
      LaterThanItself(w.sess);
    } else {
      LinkIsLater(Latest(hs), w);
      OrderExtends(hs, w);
      GroundExtends(hs, w);
      hide InOrder, Grounded, Link, Recorded;
    }
  }

  lemma VersionsOrdered(hs: seq<Write>, v: nat, w: nat)
    requires Chain(hs) && HasVersion(hs, v) && HasVersion(hs, w) && v <= w
    ensures Later(Version(hs, v), Version(hs, w))
  {
  }

  lemma LatestRecorded(hs: seq<Write>)
    requires Chain(hs) && hs != []
    ensures Recorded(hs, Latest(hs))
    ensures forall v: nat | HasVersion(hs, v) :: v <= Latest(hs).version
  {
    assert hs[|hs| - 1].sess.version == hs[0].sess.version + (|hs| - 1);
  }

  /** Any two versions belong to the same sign-in. */
  lemma SameSignIn(hs: seq<Write>, v: nat, w: nat)
    requires Chain(hs) && HasVersion(hs, v) && HasVersion(hs, w)
    ensures var a, b := Version(hs, v), Version(hs, w);
            a.userId == b.userId && a.createdAt == b.createdAt && a.attributes == b.attributes
  {
    if v <= w { VersionsOrdered(hs, v, w); } else { VersionsOrdered(hs, w, v); }
  }

  // ---- what one handler may rely on ----

  /** What was stored under one id, and what the provider answered for it. */
  datatype View = View(now: Time, hs: seq<Write>, answers: set<(Id, string, Response)>, id: Id)

  function Hist(s: State, id: Id): seq<Write> {
    if id in s.history then s.history[id] else []
  }

  function ViewOf(s: State, id: Id): View {
    View(s.now, Hist(s, id), s.redeemed, id)
  }

  predicate Grows(v: View, w: View) {
    v.now <= w.now && v.hs <= w.hs && v.answers <= w.answers && v.id == w.id
  }

  predicate WithinCaps(cfg: Config, sess: Session, ttl: int, computedAt: Time) {
    && ttl <= cfg.sessionTTL
    && (cfg.absoluteLifetime > 0 ==> computedAt + ttl <= sess.createdAt + cfg.absoluteLifetime)
    && (cfg.idleTimeout > 0 ==> computedAt + ttl <= LastActivity(sess) + cfg.idleTimeout)
  }

  lemma TtlWithinCaps(cfg: Config, sess: Session, now: Time)
    ensures WithinCaps(cfg, sess, SessionTTLFor(cfg, sess, now), now)
  {
  }

  /** The TTL is the longest one that every limit allows. */
  lemma TtlIsLongest(cfg: Config, sess: Session, ttl: int, now: Time)
    ensures WithinCaps(cfg, sess, ttl, now) <==> ttl <= SessionTTLFor(cfg, sess, now)
  {
  }

  /** Neither limit has been reached: not the absolute lifetime, counted from the sign-in, and not
      the idle timeout, counted from the last recorded activity or else from the sign-in. */
  predicate WithinLimits(cfg: Config, sess: Session, now: Time) {
    && (cfg.absoluteLifetime > 0 ==> sess.createdAt != ZERO_TIME && now < sess.createdAt + cfg.absoluteLifetime)
    && (cfg.idleTimeout > 0 && sess.lastActivity != ZERO_TIME ==> now < sess.lastActivity + cfg.idleTimeout)
    && (cfg.idleTimeout > 0 && sess.lastActivity == ZERO_TIME ==>
          sess.createdAt != ZERO_TIME && now < sess.createdAt + cfg.idleTimeout)
  }

  /** A session can be stored and is served exactly while it is within its limits. */
  lemma LimitsAreExact(cfg: Config, sess: Session, now: Time)
    ensures LifetimeExceeded(cfg, sess, now) <==> !WithinLimits(cfg, sess, now)
    ensures cfg.sessionTTL > 0 && sess.createdAt != ZERO_TIME ==>
              (SessionTTLFor(cfg, sess, now) > 0 <==> WithinLimits(cfg, sess, now))
    ensures cfg.sessionTTL > 0 && WithinLimits(cfg, sess, now) ==> SessionTTLFor(cfg, sess, now) > 0
  {
  }

  /** u is current's sign-in with the tokens of resp. */
  predicate Bears(u: Session, current: Session, resp: Response) {
    && u.userId == current.userId && u.createdAt == current.createdAt && u.attributes == current.attributes
    && u.access == resp.access && u.expiry == resp.expiry
    && u.refresh == (if resp.refresh != "" then resp.refresh else current.refresh)
    && Applied(u, current, resp)
  }

  lemma ApplyTokensBears(current: Session, resp: Response)
    ensures var u := ApplyTokens(current, resp);
            Bears(u, current, resp) && u.lastActivity == current.lastActivity && u.version == current.version + 1
  {
  }

  predicate JobInv(cfg: Config, v: View, current: Session, job: Job) {
    && Bears(job.updated, current, job.resp)
    && job.attempt < MAX_ACTIVITY_MERGE_ATTEMPTS
    && job.computedAt <= v.now
    && WithinCaps(cfg, job.updated, job.ttl, job.computedAt)
    && HasVersion(v.hs, job.expected)
    && var pred := Version(v.hs, job.expected);
    && pred.refresh == current.refresh
    && job.updated.lastActivity == pred.lastActivity
    && job.updated.version == job.expected + 1
  }

  predicate Answered(v: View, current: Session, resp: Response) {
    && current.refresh != ""
    && Acceptable(current, resp)
    && (v.id, current.refresh, resp) in v.answers
  }

  predicate PointInv(cfg: Config, v: View, f: Flight) {
    && (f.at.Ready? || f.at.Exchanging? ==> f.current.refresh != "")
    && (f.at.ComputeTtl? ==>
          && Answered(v, f.current, f.at.resp) && Bears(f.at.updated, f.current, f.at.resp)
          && f.at.updated.lastActivity == f.current.lastActivity && f.at.updated.version == f.current.version + 1)
    && (f.at.Store? || f.at.ReadAfterLoss? || f.at.Merge? ==>
          Answered(v, f.current, f.at.job.resp) && JobInv(cfg, v, f.current, f.at.job))
    && (f.at.Merge? && f.found.Some? ==> f.found.value.version >= f.at.job.expected)
  }

  predicate FlightInv(cfg: Config, v: View, f: Flight) {
    && Recorded(v.hs, f.current) && AllRecorded(v.hs, f.found) && AllRecorded(v.hs, f.outcome)
    && PointInv(cfg, v, f)
  }

  /** The limits were not reached when the request started. */
  predicate Vetted(cfg: Config, hs: seq<Write>, startedAt: Time) {
    hs != [] && !LifetimeExceeded(cfg, Latest(hs), startedAt)
  }

  predicate ActivityInv(cfg: Config, v: View, sess: Session, updated: Session, ttl: int, computedAt: Time) {
    && Recorded(v.hs, sess)
    && ZERO_TIME < computedAt <= v.now
    && computedAt >= LastActivity(sess) + ACTIVITY_WRITE_INTERVAL
    && computedAt >= sess.lastActivity
    && updated == sess.(lastActivity := computedAt, version := sess.version + 1)
    && WithinCaps(cfg, updated, ttl, computedAt)
  }

  predicate PcInv(cfg: Config, v: View, startedAt: Time, pc: Pc) {
    match pc
    case Check(sess) => Recorded(v.hs, sess)
    case Decide(sess) => Recorded(v.hs, sess) && Vetted(cfg, v.hs, startedAt)
    case Join(_) => Vetted(cfg, v.hs, startedAt)
    case Refresh(f) => Vetted(cfg, v.hs, startedAt) && FlightInv(cfg, v, f)
    case Record(sess) => Recorded(v.hs, sess) && Vetted(cfg, v.hs, startedAt)
    case WriteActivity(sess, updated, ttl, computedAt) =>
      Vetted(cfg, v.hs, startedAt) && ActivityInv(cfg, v, sess, updated, ttl, computedAt)
    case Done(result) => result.Some? ==> Recorded(v.hs, result.value) && Vetted(cfg, v.hs, startedAt)
    case Callback(sess, ttl, computedAt) => computedAt <= v.now && WithinCaps(cfg, sess, ttl, computedAt)
    case _ => true
  }

  // ---- growth of the history keeps it ----

  lemma VettedStays(cfg: Config, hs: seq<Write>, hs': seq<Write>, startedAt: Time)
    requires Chain(hs') && hs <= hs' && Vetted(cfg, hs, startedAt)
    ensures Vetted(cfg, hs', startedAt)
  {
    assert Later(hs'[|hs| - 1].sess, hs'[|hs'| - 1].sess);
  }

  lemma FlightStays(cfg: Config, v: View, w: View, f: Flight)
    requires Grows(v, w) && FlightInv(cfg, v, f)
    ensures FlightInv(cfg, w, f)
  {
  }

  lemma PcStays(cfg: Config, v: View, w: View, startedAt: Time, pc: Pc)
    requires Grows(v, w) && Chain(w.hs) && PcInv(cfg, v, startedAt, pc)
    ensures PcInv(cfg, w, startedAt, pc)
  {
    hide Chain, FlightInv;
    if Vetted(cfg, v.hs, startedAt) { VettedStays(cfg, v.hs, w.hs, startedAt); }
    if pc.Refresh? { FlightStays(cfg, v, w, pc.flight); }
  }

  // ---- one step of one handler ----

  /** What the invariant says about the store under a single id. */
  predicate IdInv(s: State, id: Id) {
    && Chain(Hist(s, id))
    && (id in s.store ==> Hist(s, id) != [] && Latest(Hist(s, id)) == s.store[id].sess)
  }

  predicate Quiet(e: Effect) {
    e.NoEffect? || e.Remove? || e.Acquire? || e.Free?
  }

  lemma ReadIsRecorded(s: State, id: Id)
    requires IdInv(s, id) && Live(s, id)
    ensures Recorded(Hist(s, id), s.store[id].sess)
    ensures forall v: nat | HasVersion(Hist(s, id), v) :: v <= s.store[id].sess.version
  {
    LatestRecorded(Hist(s, id));
  }

  /** A version that can be replaced is the last one stored. */
  lemma UpdatableIsLatest(s: State, id: Id, expected: nat)
    requires IdInv(s, id) && CanUpdate(s, id, expected)
    ensures var hs := Hist(s, id);
            HasVersion(hs, expected) && Version(hs, expected) == s.store[id].sess == Latest(hs)
  {
    LatestRecorded(Hist(s, id));
  }

  /** Refreshed tokens written over a session that holds the redeemed token. */
  lemma RefreshLinks(a: Session, u: Session, current: Session, resp: Response)
    requires a.userId == current.userId && a.createdAt == current.createdAt && a.attributes == current.attributes
    requires a.refresh == current.refresh != "" && Acceptable(current, resp)
    requires Bears(u, current, resp) && u.lastActivity == a.lastActivity && u.version == a.version + 1
    ensures Link(a, Write(u, Refreshed(current, resp)))
  {
  }

  lemma LaterKeepsCaps(cfg: Config, a: Session, b: Session, ttl: int, computedAt: Time)
    requires WithinCaps(cfg, a, ttl, computedAt)
    requires a.createdAt == b.createdAt && LastActivity(a) <= LastActivity(b)
    ensures WithinCaps(cfg, b, ttl, computedAt)
  {
  }

  lemma RebaseKeepsJob(cfg: Config, v: View, current: Session, job: Job, latest: Session)
    requires Chain(v.hs) && Recorded(v.hs, current) && Recorded(v.hs, latest)
    requires JobInv(cfg, v, current, job) && job.expected <= latest.version
    requires OnlyActivityChanged(current, latest) && job.attempt + 1 < MAX_ACTIVITY_MERGE_ATTEMPTS
    ensures JobInv(cfg, v, current, Rebase(job, latest))
  {
    VersionsOrdered(v.hs, job.expected, latest.version);
    SameSignIn(v.hs, job.expected, current.version);
    LaterKeepsCaps(cfg, job.updated, Rebase(job, latest).updated, job.ttl, job.computedAt);
  }

  predicate LegalEffect(cfg: Config, s: State, e: Effect) {
    match e
    case Create(id, sess, ttl, computedAt) =>
      Hist(s, id) == [] && computedAt <= s.now && WithinCaps(cfg, sess, ttl, computedAt)
    case Update(id, expected, sess, ttl, computedAt, how) =>
      CanUpdate(s, id, expected) ==>
        && Link(s.store[id].sess, Write(sess, how))
        && computedAt <= s.now && WithinCaps(cfg, sess, ttl, computedAt)
        && (how.Refreshed? ==> (id, how.from.refresh, how.resp) in s.redeemed && Recorded(Hist(s, id), how.from))
    case _ => true
  }

  lemma LockKeepsFlight(cfg: Config, s: State, id: Id, f: Flight, ch: Choice)
    requires AllRecorded(Hist(s, id), Read(s, id)) && FlightInv(cfg, ViewOf(s, id), f) && Waiting(f.at)
    ensures var (f', e) := StepLock(cfg, s, id, f, ch); Quiet(e) && FlightInv(cfg, ViewOf(s, id), f')
  {
    hide Recorded, Read, JobInv, Bears, Answered;
  }

  lemma FailKeepsFlight(cfg: Config, s: State, id: Id, f: Flight, ch: Choice)
    requires AllRecorded(Hist(s, id), Read(s, id)) && FlightInv(cfg, ViewOf(s, id), f) && Failing(f.at)
    ensures var (f', e) := StepFail(cfg, s, id, f, ch); Quiet(e) && FlightInv(cfg, ViewOf(s, id), f')
  {
    hide Recorded, Read, JobInv, Bears, Answered;
  }

  lemma StoreLinks(cfg: Config, s: State, id: Id, current: Session, job: Job)
    requires IdInv(s, id) && Recorded(Hist(s, id), current) && CanUpdate(s, id, job.expected)
    requires Answered(ViewOf(s, id), current, job.resp) && JobInv(cfg, ViewOf(s, id), current, job)
    ensures Link(s.store[id].sess, Write(job.updated, Refreshed(current, job.resp)))
  {
    UpdatableIsLatest(s, id, job.expected);
    SameSignIn(Hist(s, id), job.expected, current.version);
    RefreshLinks(s.store[id].sess, job.updated, current, job.resp);
  }

  lemma WriteRecords(s: State, id: Id, sess: Session, ttl: int, computedAt: Time, how: How)
    requires IdInv(s, id) && id in s.store && Link(s.store[id].sess, Write(sess, how))
    requires how.Refreshed? ==> Recorded(Hist(s, id), how.from)
    ensures var hs := Hist(Written(s, id, sess, ttl, computedAt, how), id);
            Hist(s, id) <= hs && Recorded(hs, sess)
  {
    ChainExtends(Hist(s, id), Write(sess, how));
  }

  /** The compare-and-set of a refresh. */
  lemma CasKeepsFlight(cfg: Config, s: State, p: Pid, id: Id, f: Flight, ch: Choice)
    requires IdInv(s, id) && FlightInv(cfg, ViewOf(s, id), f) && f.at.Store?
    ensures var (f', e) := StepStore(cfg, s, id, f, ch);
            LegalEffect(cfg, s, e) && FlightInv(cfg, ViewOf(Apply(s, p, e), id), f')
  {
    hide Chain, Bears, Link;
    var job := f.at.job;
    if CanUpdate(s, id, job.expected) {
      StoreLinks(cfg, s, id, f.current, job);
      WriteRecords(s, id, job.updated, job.ttl, job.computedAt, Refreshed(f.current, job.resp));
    }
  }

  lemma MergeKeepsFlight(cfg: Config, v: View, f: Flight)
    requires Chain(v.hs) && FlightInv(cfg, v, f) && f.at.Merge?
    ensures FlightInv(cfg, v, StepMerge(cfg, v.now, f, f.at.job))
  {
    var job := f.at.job;
    if StepMerge(cfg, v.now, f, job).at.Store? { RebaseKeepsJob(cfg, v, f.current, job, f.found.value); }
    hide Chain, JobInv, Rebase, Recorded, Answered;
  }

  lemma StoreKeepsFlight(cfg: Config, s: State, id: Id, f: Flight, ch: Choice)
    requires IdInv(s, id) && FlightInv(cfg, ViewOf(s, id), f) && Storing(f.at) && !f.at.Store?
    ensures var (f', e) := StepStore(cfg, s, id, f, ch); Quiet(e) && FlightInv(cfg, ViewOf(s, id), f')
  {
    hide Chain, Bears, LastActivity, SessionTTLFor, StepMerge;
    match f.at
    case ComputeTtl(updated, resp) => TtlWithinCaps(cfg, updated, s.now);
    case ReadAfterLoss(job) => if Live(s, id) { ReadIsRecorded(s, id); }
    case Merge(job) => MergeKeepsFlight(cfg, ViewOf(s, id), f);
    case EndLifetime =>
  }

  lemma MainKeepsFlight(cfg: Config, s: State, id: Id, f: Flight, ch: Choice)
    requires AllRecorded(Hist(s, id), Read(s, id)) && FlightInv(cfg, ViewOf(s, id), f)
    requires !Waiting(f.at) && !Storing(f.at) && !Failing(f.at) && !f.at.Exchanging?
    ensures var (f', e) := StepMain(cfg, s, id, f, ch); Quiet(e) && FlightInv(cfg, ViewOf(s, id), f')
  {
    hide Recorded, Read, JobInv, Bears, Answered;
  }

  lemma QuietView(s: State, p: Pid, e: Effect, id: Id)
    requires Quiet(e)
    ensures ViewOf(Apply(s, p, e), id) == ViewOf(s, id)
  {
  }

  lemma ExchangeKeepsFlight(cfg: Config, s: State, p: Pid, id: Id, f: Flight, ch: Choice)
    requires FlightInv(cfg, ViewOf(s, id), f) && f.at.Exchanging?
    ensures var (f', e) := StepExchange(id, f, ch);
            LegalEffect(cfg, s, e) && FlightInv(cfg, ViewOf(Apply(s, p, e), id), f')
  {
    if ch.Tokens? { ApplyTokensBears(f.current, ch.resp); }
    hide ApplyTokens, Recorded, JobInv;
  }

  lemma FlightStep(cfg: Config, s: State, p: Pid, id: Id, f: Flight, ch: Choice)
    requires IdInv(s, id) && FlightInv(cfg, ViewOf(s, id), f)
    ensures var (f', e) := StepFlight(cfg, s, id, f, ch);
            LegalEffect(cfg, s, e) && FlightInv(cfg, ViewOf(Apply(s, p, e), id), f')
  {
    hide Chain, FlightInv, Recorded, StepLock, StepStore, StepFail, StepMain, StepExchange, ViewOf, Apply;
    if Live(s, id) { ReadIsRecorded(s, id); }
    var (f', e) := StepFlight(cfg, s, id, f, ch);
    if f.at.Store? {
      CasKeepsFlight(cfg, s, p, id, f, ch);
    } else if f.at.Exchanging? {
      ExchangeKeepsFlight(cfg, s, p, id, f, ch);
    } else {
      if Waiting(f.at) {
        LockKeepsFlight(cfg, s, id, f, ch);
      } else if Storing(f.at) {
        StoreKeepsFlight(cfg, s, id, f, ch);
      } else if Failing(f.at) {
        FailKeepsFlight(cfg, s, id, f, ch);
      } else {
        MainKeepsFlight(cfg, s, id, f, ch);
      }
      QuietView(s, p, e, id);
    }
  }

  lemma ActivityLinks(cfg: Config, v: View, sess: Session, updated: Session, ttl: int, computedAt: Time)
    requires ActivityInv(cfg, v, sess, updated, ttl, computedAt)
    ensures Link(sess, Write(updated, Activity))
  {
  }

  /** The compare-and-set of recordActivity. */
  lemma ActivityCas(cfg: Config, s: State, p: Pid, h: Handler, ch: Choice)
    requires IdInv(s, h.id) && PcInv(cfg, ViewOf(s, h.id), h.startedAt, h.pc) && h.pc.WriteActivity?
    ensures var (pc, e) := StepActivity(cfg, s, h, ch);
            LegalEffect(cfg, s, e) && PcInv(cfg, ViewOf(Apply(s, p, e), h.id), h.startedAt, pc)
  {
    hide Chain, Link, Vetted, FlightInv;
    var WriteActivity(sess, updated, ttl, computedAt) := h.pc;
    if CanUpdate(s, h.id, sess.version) {
      UpdatableIsLatest(s, h.id, sess.version);
      ActivityLinks(cfg, ViewOf(s, h.id), sess, updated, ttl, computedAt);
      ChainExtends(Hist(s, h.id), Write(updated, Activity));
      VettedStays(cfg, Hist(s, h.id), Hist(s, h.id) + [Write(updated, Activity)], h.startedAt);
    }
  }

  lemma ActivityPlan(cfg: Config, s: State, h: Handler, ch: Choice)
    requires s.now > ZERO_TIME && PcInv(cfg, ViewOf(s, h.id), h.startedAt, h.pc) && h.pc.Record?
    ensures var (pc, e) := StepActivity(cfg, s, h, ch);
            e.NoEffect? && PcInv(cfg, ViewOf(s, h.id), h.startedAt, pc)
  {
    hide Vetted, FlightInv, SessionTTLFor;
    TtlWithinCaps(cfg, h.pc.sess.(lastActivity := s.now, version := h.pc.sess.version + 1), s.now);
  }

  // ---- the whole state ----

  predicate StampOk(cfg: Config, e: Entry, now: Time) {
    e.stamp.Stamp? ==>
      && e.stamp.computedAt <= e.stamp.writtenAt <= now
      && WithinCaps(cfg, e.sess, e.expiresAt - e.stamp.writtenAt, e.stamp.computedAt)
  }

  /** Every refreshed version was bought with an answer of the token endpoint. */
  ghost predicate AnsweredWrites(s: State, id: Id) {
    forall w <- Hist(s, id) :: w.how.Refreshed? ==> (id, w.how.from.refresh, w.how.resp) in s.redeemed
  }

  ghost predicate StoreInv(cfg: Config, s: State) {
    && (forall id :: IdInv(s, id))
    && (forall id :: AnsweredWrites(s, id))
    && (forall id <- s.store :: StampOk(cfg, s.store[id], s.now))
  }

  predicate HandlerInv(cfg: Config, s: State, h: Handler) {
    && h.startedAt <= s.now
    && PcInv(cfg, ViewOf(s, h.id), h.startedAt, h.pc)
    && (h.led.Some? ==> AllRecorded(Hist(s, h.id), h.led.value))
  }

  /** Who joined a flight joined one for the same session. */
  predicate JoinInv(s: State, h: Handler) {
    h.pc.Join? ==> h.pc.leader in s.handlers && s.handlers[h.pc.leader].id == h.id
  }

  predicate SigningIn(s: State, p: Pid) {
    p in s.handlers && s.handlers[p].pc.Callback?
  }

  /** The id of a sign-in under way has never been stored and is nobody else's. */
  ghost predicate FreshInv(s: State) {
    && s.history.Keys <= s.issued
    && (forall p | SigningIn(s, p) :: s.handlers[p].id in s.issued && s.handlers[p].id !in s.history)
    && (forall p, q | SigningIn(s, p) && SigningIn(s, q) && s.handlers[p].id == s.handlers[q].id :: p == q)
  }

  ghost predicate Inv(cfg: Config, s: State) {
    && s.now > ZERO_TIME
    && StoreInv(cfg, s) && FreshInv(s)
    && (forall p <- s.handlers :: HandlerInv(cfg, s, s.handlers[p]) && JoinInv(s, s.handlers[p]))
  }

  ghost predicate AllGrow(s: State, t: State) {
    forall id :: Grows(ViewOf(s, id), ViewOf(t, id))
  }

  lemma WriteKeepsStore(cfg: Config, s: State, id: Id, sess: Session, ttl: int, computedAt: Time, how: How)
    requires StoreInv(cfg, s)
    requires computedAt <= s.now && WithinCaps(cfg, sess, ttl, computedAt)
    requires Hist(s, id) != [] ==> Link(Latest(Hist(s, id)), Write(sess, how))
    requires how.Refreshed? ==> (id, how.from.refresh, how.resp) in s.redeemed && Recorded(Hist(s, id), how.from)
    ensures var t := Written(s, id, sess, ttl, computedAt, how); StoreInv(cfg, t) && AllGrow(s, t)
  {
    hide Chain, Link;
    var t := Written(s, id, sess, ttl, computedAt, how);
    assert IdInv(s, id) && AnsweredWrites(s, id);
    ChainExtends(Hist(s, id), Write(sess, how));
    forall i ensures IdInv(t, i) && AnsweredWrites(t, i) && Grows(ViewOf(s, i), ViewOf(t, i)) {
      assert IdInv(s, i) && AnsweredWrites(s, i);
    }
  }

  lemma EffectKeepsStore(cfg: Config, s: State, p: Pid, e: Effect)
    requires StoreInv(cfg, s) && LegalEffect(cfg, s, e)
    ensures StoreInv(cfg, Apply(s, p, e)) && AllGrow(s, Apply(s, p, e))
  {
    hide Chain, Link, WithinCaps, Written;
    match e
    case Create(id, sess, ttl, computedAt) => WriteKeepsStore(cfg, s, id, sess, ttl, computedAt, Created);
    case Update(id, expected, sess, ttl, computedAt, how) =>
      if CanUpdate(s, id, expected) {
        assert IdInv(s, id);
        WriteKeepsStore(cfg, s, id, sess, ttl, computedAt, how);
      }
    case _ =>
      var t := Apply(s, p, e);
      forall i ensures IdInv(t, i) && AnsweredWrites(t, i) && Grows(ViewOf(s, i), ViewOf(t, i)) {
        assert IdInv(s, i) && AnsweredWrites(s, i);
      }
  }

  // ---- one event ----

  lemma CheckVets(cfg: Config, s: State, id: Id, sess: Session, startedAt: Time)
    requires IdInv(s, id) && Recorded(Hist(s, id), sess) && startedAt <= s.now && !LifetimeExceeded(cfg, sess, s.now)
    ensures Vetted(cfg, Hist(s, id), startedAt)
  {
    hide Chain;
    var hs := Hist(s, id);
    LatestRecorded(hs);
    VersionsOrdered(hs, sess.version, Latest(hs).version);
  }

  lemma RequestStep(cfg: Config, s: State, h: Handler, ch: Choice)
    requires IdInv(s, h.id) && HandlerInv(cfg, s, h) && Entering(h.pc) && JoinInv(s, h)
    requires h.pc.Join? ==> HandlerInv(cfg, s, s.handlers[h.pc.leader])
    ensures var (pc, e) := StepRequest(cfg, s, h, ch);
            Quiet(e) && PcInv(cfg, ViewOf(s, h.id), h.startedAt, pc)
  {
    hide Chain, Vetted, LifetimeExceeded, Recorded, Leads;
    if Live(s, h.id) { ReadIsRecorded(s, h.id); }
    if h.pc.Check? && !LifetimeExceeded(cfg, h.pc.sess, s.now) {
      CheckVets(cfg, s, h.id, h.pc.sess, h.startedAt);
    }
  }

  lemma DeletionIsQuiet(s: State, pc: Pc, ch: Choice)
    requires pc.Lookup? || pc.Visit? || pc.Drop?
    ensures var (pc', e) := StepDeletion(s, pc, ch);
            Quiet(e) && (pc'.Lookup? || pc'.Visit? || pc'.Drop? || pc'.Dropped? || pc'.Failed?)
  {
  }

  lemma FlightPc(cfg: Config, s: State, p: Pid, h: Handler, ch: Choice)
    requires StoreInv(cfg, s) && PcInv(cfg, ViewOf(s, h.id), h.startedAt, h.pc) && h.pc.Refresh?
    ensures var (pc, e) := StepHandler(cfg, s, h, ch);
            LegalEffect(cfg, s, e) && PcInv(cfg, ViewOf(Apply(s, p, e), h.id), h.startedAt, pc)
  {
    hide Chain, Vetted, StepFlight, Apply, PointInv;
    assert IdInv(s, h.id);
    var f := h.pc.flight;
    if f.at.Finished? {
      QuietView(s, p, NoEffect, h.id);
    } else {
      FlightStep(cfg, s, p, h.id, f, ch);
      var (f', e) := StepFlight(cfg, s, h.id, f, ch);
      EffectKeepsStore(cfg, s, p, e);
      var t := Apply(s, p, e);
      assert Grows(ViewOf(s, h.id), ViewOf(t, h.id)) && IdInv(t, h.id);
      VettedStays(cfg, Hist(s, h.id), Hist(t, h.id), h.startedAt);
    }
  }

  lemma PcStep(cfg: Config, s: State, p: Pid, ch: Choice)
    requires Inv(cfg, s) && p in s.handlers
    ensures var h := s.handlers[p];
            var (pc, e) := StepHandler(cfg, s, h, ch);
            LegalEffect(cfg, s, e) && PcInv(cfg, ViewOf(Apply(s, p, e), h.id), h.startedAt, pc)
  {
    hide StepRequest, StepFlight, StepActivity, StepDeletion, Apply, Recorded, Chain, FlightInv, Vetted, ActivityInv;
    var h := s.handlers[p];
    var (pc, e) := StepHandler(cfg, s, h, ch);
    assert IdInv(s, h.id) && HandlerInv(cfg, s, h) && JoinInv(s, h);
    if Entering(h.pc) {
      RequestStep(cfg, s, h, ch);
      QuietView(s, p, e, h.id);
    } else if h.pc.Refresh? {
      FlightPc(cfg, s, p, h, ch);
    } else if h.pc.Record? {
      ActivityPlan(cfg, s, h, ch);
      QuietView(s, p, e, h.id);
    } else if h.pc.WriteActivity? {
      ActivityCas(cfg, s, p, h, ch);
    } else if h.pc.Lookup? || h.pc.Visit? || h.pc.Drop? {
      DeletionIsQuiet(s, h.pc, ch);
    } else if h.pc.Callback? {
      assert SigningIn(s, p);
    } else {
      QuietView(s, p, e, h.id);
    }
  }

  lemma HandlerStays(cfg: Config, s: State, t: State, h: Handler)
    requires HandlerInv(cfg, s, h) && AllGrow(s, t) && StoreInv(cfg, t)
    ensures HandlerInv(cfg, t, h)
  {
    hide Chain, PcInv;
    assert Grows(ViewOf(s, h.id), ViewOf(t, h.id)) && IdInv(t, h.id);
    PcStays(cfg, ViewOf(s, h.id), ViewOf(t, h.id), h.startedAt, h.pc);
  }

  lemma LedIsRecorded(cfg: Config, s: State, h: Handler)
    requires HandlerInv(cfg, s, h)
    ensures Led(h).Some? ==> AllRecorded(Hist(s, h.id), Led(h).value)
  {
  }

  /** A handler neither starts to sign in nor takes a stored id at a step. */
  lemma RunKeepsFresh(cfg: Config, s: State, p: Pid, ch: Choice)
    requires FreshInv(s) && StoreInv(cfg, s) && p in s.handlers
    ensures FreshInv(RunHandler(cfg, s, p, ch))
  {
    hide StepRequest, StepFlight, StepActivity, StepDeletion, Chain;
    var h := s.handlers[p];
    var (pc, e) := StepHandler(cfg, s, h, ch);
    var t := RunHandler(cfg, s, p, ch);
    StepIsLocal(cfg, s, h, ch);
    assert h.pc.Callback? ==> SigningIn(s, p);
    forall q | SigningIn(t, q) ensures SigningIn(s, q) && t.handlers[q].id == s.handlers[q].id {}
    assert e.Update? ==> e.id in s.history || !CanUpdate(s, e.id, e.expected) by {
      if e.Update? { assert IdInv(s, e.id); }
    }
  }

  /** Only a sign-in creates, and only a sign-in that failed goes on signing in. */
  lemma StepIsLocal(cfg: Config, s: State, h: Handler, ch: Choice)
    ensures var (pc, e) := StepHandler(cfg, s, h, ch);
            && !pc.Callback?
            && (e.Create? ==> h.pc.Callback? && e.id == h.id)
  {
    hide StepStore, StepFail, StepLock, StepMain, StepExchange;
    if h.pc.Refresh? && !h.pc.flight.at.Finished? { FlightNeverCreates(cfg, s, h.id, h.pc.flight, ch); }
  }

  lemma FlightNeverCreates(cfg: Config, s: State, id: Id, f: Flight, ch: Choice)
    ensures !StepFlight(cfg, s, id, f, ch).1.Create?
  {
  }

  lemma StepJoins(cfg: Config, s: State, h: Handler, ch: Choice)
    requires JoinInv(s, h)
    ensures JoinInv(s, h.(pc := StepHandler(cfg, s, h, ch).0))
  {
    hide StepStore, StepFail, StepLock, StepMain, StepExchange, StepFlight;
  }

  lemma SameHistory(cfg: Config, s: State, t: State)
    requires StoreInv(cfg, s) && s.store == t.store && s.history == t.history
    requires s.redeemed == t.redeemed && s.now == t.now
    ensures StoreInv(cfg, t)
  {
    hide Chain, Latest;
    forall id ensures IdInv(t, id) && AnsweredWrites(t, id) {
      assert IdInv(s, id) && AnsweredWrites(s, id);
    }
  }

  lemma RunKeepsStore(cfg: Config, s: State, p: Pid, ch: Choice)
    requires Inv(cfg, s) && p in s.handlers
    ensures var t := RunHandler(cfg, s, p, ch); StoreInv(cfg, t) && AllGrow(s, t) && HandlerInv(cfg, t, t.handlers[p])
  {
    hide StepHandler, Chain, FreshInv, LegalEffect, PcInv, Recorded, IdInv, Apply;
    var h := s.handlers[p];
    var (pc, e) := StepHandler(cfg, s, h, ch);
    PcStep(cfg, s, p, ch);
    EffectKeepsStore(cfg, s, p, e);
    var u := Apply(s, p, e);
    var t := RunHandler(cfg, s, p, ch);
    SameHistory(cfg, u, t);
    forall id ensures Grows(ViewOf(s, id), ViewOf(t, id)) { assert Grows(ViewOf(s, id), ViewOf(u, id)); }
    LedIsRecorded(cfg, s, h);
    assert Grows(ViewOf(s, h.id), ViewOf(t, h.id));
    LedStays(ViewOf(s, h.id), ViewOf(t, h.id), Led(h));
  }

  lemma LedStays(v: View, w: View, led: Option<Option<Session>>)
    requires Grows(v, w) && (led.Some? ==> AllRecorded(v.hs, led.value))
    ensures led.Some? ==> AllRecorded(w.hs, led.value)
  {
  }

  lemma ApplyKeepsHandlers(s: State, p: Pid, e: Effect)
    ensures Apply(s, p, e).handlers == s.handlers && Apply(s, p, e).now == s.now && Apply(s, p, e).issued == s.issued
  {
  }

  lemma RunKeepsInv(cfg: Config, s: State, p: Pid, ch: Choice)
    requires Inv(cfg, s) && p in s.handlers
    ensures Inv(cfg, RunHandler(cfg, s, p, ch)) && AllGrow(s, RunHandler(cfg, s, p, ch))
  {
    hide StepHandler, HandlerInv, FreshInv, StoreInv, AllGrow, Apply;
    RunKeepsFresh(cfg, s, p, ch);
    RunKeepsStore(cfg, s, p, ch);
    StepJoins(cfg, s, s.handlers[p], ch);
    ApplyKeepsHandlers(s, p, StepHandler(cfg, s, s.handlers[p], ch).1);
    var t := RunHandler(cfg, s, p, ch);
    forall q <- t.handlers ensures HandlerInv(cfg, t, t.handlers[q]) && JoinInv(t, t.handlers[q]) {
      if q != p {
        assert HandlerInv(cfg, s, s.handlers[q]) && JoinInv(s, s.handlers[q]);
        HandlerStays(cfg, s, t, s.handlers[q]);
      }
    }
  }

  /** Time passing, sweeping expired entries and starting handlers. */
  lemma QuietEventKeepsStore(cfg: Config, s: State, e: Event)
    requires StoreInv(cfg, s) && Enabled(s, e) && !e.Run?
    ensures StoreInv(cfg, Next(cfg, s, e)) && AllGrow(s, Next(cfg, s, e))
  {
    hide Chain, Latest, WithinCaps, SessionTTLFor, NewSession;
    var t := Next(cfg, s, e);
    forall id ensures IdInv(t, id) && AnsweredWrites(t, id) && Grows(ViewOf(s, id), ViewOf(t, id)) {
      assert IdInv(s, id) && AnsweredWrites(s, id);
    }
  }

  lemma NewHandlerOk(cfg: Config, s: State, e: Event)
    requires Enabled(s, e) && (e.Request? || e.SignIn? || e.SignOut? || e.DeleteBy?)
    ensures var t := Next(cfg, s, e);
            e.pid in t.handlers && HandlerInv(cfg, t, t.handlers[e.pid]) && JoinInv(t, t.handlers[e.pid])
  {
    if e.SignIn? {
      TtlWithinCaps(cfg, NewSession(e.subject, e.resp, e.idToken, e.claims, e.attributes, s.now), s.now);
    }
  }

  lemma QuietEventKeepsFresh(cfg: Config, s: State, e: Event)
    requires FreshInv(s) && Enabled(s, e) && !e.Run?
    ensures FreshInv(Next(cfg, s, e))
  {
    hide SessionTTLFor, NewSession;
    var t := Next(cfg, s, e);
    forall q | SigningIn(t, q)
      ensures t.handlers[q] == (if SigningIn(s, q) then s.handlers[q] else t.handlers[q])
      ensures SigningIn(s, q) || (e.SignIn? && e.pid == q && t.handlers[q].id == e.id)
    {
    }
  }

  lemma NextKeepsInv(cfg: Config, s: State, e: Event)
    requires Inv(cfg, s)
    ensures Inv(cfg, Next(cfg, s, e)) && AllGrow(s, Next(cfg, s, e))
  {
    hide HandlerInv, FreshInv, StoreInv, AllGrow, RunHandler, SessionTTLFor, NewSession;
    if !Enabled(s, e) {
      hide *;
      NoEventGrows(s);
    } else if e.Run? {
      RunKeepsInv(cfg, s, e.pid, e.choice);
    } else {
      QuietEventKeepsStore(cfg, s, e);
      QuietEventKeepsFresh(cfg, s, e);
      if e.Request? || e.SignIn? || e.SignOut? || e.DeleteBy? { NewHandlerOk(cfg, s, e); }
      var t := Next(cfg, s, e);
      forall q <- t.handlers ensures HandlerInv(cfg, t, t.handlers[q]) && JoinInv(t, t.handlers[q]) {
        if q in s.handlers {
          assert HandlerInv(cfg, s, s.handlers[q]) && JoinInv(s, s.handlers[q]);
          HandlerStays(cfg, s, t, s.handlers[q]);
        }
      }
    }
  }

  lemma NoEventGrows(s: State)
    ensures AllGrow(s, s)
  {
  }

  lemma InitInv(cfg: Config, s: State)
    requires Init(s)
    ensures Inv(cfg, s)
  {
  }
}
