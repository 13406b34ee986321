/** Request handlers, possibly on several replicas, over one shared session store.
    Every store, lock and clock access is one atomic step; the clock never goes
    back. `history` records what was stored under each id, so that properties of
    whole runs can be stated; no handler reads it. */
module SessionProtocol {
  import opened Basics
  import opened Sessions

  type Id = string
  type Pid = nat

  /** When an entry's TTL was computed and when it was written; a session that was
      in the store before the run has none. */
  datatype Stamp = Earlier | Stamp(computedAt: Time, writtenAt: Time)

  datatype Entry = Entry(sess: Session, expiresAt: Time, stamp: Stamp)

  /** How a version came about: by a sign-in, as recorded activity, or as a response applied to an
      earlier version, whose refresh token it was obtained for. */
  datatype How = Created | Activity | Refreshed(from: Session, resp: Response)

  datatype Write = Write(sess: Session, how: How)

  datatype Lock = Lock(holder: Pid, until: Time)

  datatype Target = BySubject(subject: string) | BySid(sid: string, onlySubject: string)

  /** The refreshed session a flight is trying to store. */
  datatype Job = Job(updated: Session, resp: Response, ttl: int, computedAt: Time, expected: nat, attempt: nat)

  /** Program points of refreshSession, lockRefresh, storeRefreshed and refreshFailed. */
  datatype Point =
    | ReadStored
    | Reconsider
    // lockRefresh
    | TryLock
    | AwaitLock
    | ReadWaiting
    | ReconsiderWaiting
    | CheckWait
    | ReadLocked
    // refreshSession, holding the lock if there is one
    | ReconsiderLocked
    | Ready
    | Exchanging
    // storeRefreshed
    | ComputeTtl(updated: Session, resp: Response)
    | EndLifetime
    | Store(job: Job)
    | ReadAfterLoss(job: Job)
    | Merge(job: Job)
    // refreshFailed
    | FailRead(permanent: bool)
    | FailDecide(permanent: bool)
    | FailDelete
    // leaving
    | Release
    | ReleaseFailing
    | Finished

  /** The local variables of one refresh: `found` is what the last read of the
      session returned, `outcome` what the refresh is going to return. */
  datatype Flight = Flight(at: Point, deadline: Time, giveUp: Time, locked: bool,
                           current: Session, found: Option<Session>, outcome: Option<Session>)

  /** A deletion under way: the sessions its lookup had to find, the ids still to visit, what it
      read of the sessions it left alone, and the ids it deleted. Only `rest` steers it. */
  datatype Progress = Progress(target: Target, looked: map<Id, Session>, rest: seq<Id>,
                               spared: map<Id, Session>, deleted: set<Id>)

  datatype Pc =
    // SessionFromRequest
    | Load
    | Check(sess: Session)
    | Expire
    | Decide(sess: Session)
    | Join(leader: Pid)
    | Refresh(flight: Flight)
    | Record(sess: Session)
    | WriteActivity(sess: Session, updated: Session, ttl: int, computedAt: Time)
    | Done(result: Option<Session>)
    // handleCallback, from the session it has built
    | Callback(sess: Session, ttl: int, computedAt: Time)
    | SignedIn
    // handleLogout
    | Logout
    | SignedOut
    // DeleteSessionsBySubject and backChannelDelete
    | Lookup(target: Target)
    | Visit(work: Progress)
    | Drop(work: Progress)
    | Dropped(work: Progress)
    | Failed

  datatype Handler = Handler(proc: nat, id: Id, startedAt: Time, background: bool, pc: Pc,
                             led: Option<Option<Session>>)

  datatype State = State(
    now: Time, store: map<Id, Entry>, history: map<Id, seq<Write>>, issued: set<Id>,
    redeemed: set<(Id, string, Response)>, locks: map<Id, Lock>, handlers: map<Pid, Handler>)

  /** What the environment decides at a step. */
  datatype Choice =
    | Go
    | Fault
    | Tokens(resp: Response)
    | BadIdToken
    | Rejected
    | Unavailable
    | Ids(ids: seq<Id>)
    | Follow(leader: Pid)

  datatype Effect =
    | NoEffect
    | Create(id: Id, sess: Session, ttl: int, computedAt: Time)
    | Remove(id: Id)
    | Update(id: Id, expected: nat, sess: Session, ttl: int, computedAt: Time, how: How)
    | Acquire(id: Id)
    | Free(id: Id)
    | Redeem(id: Id, token: string, resp: Response)

  datatype Event =
    | Tick(to: Time)
    | Sweep(ids: set<Id>)
    | Request(pid: Pid, proc: nat, id: Id, background: bool)
    | SignIn(pid: Pid, proc: nat, id: Id, subject: string, resp: Response, idToken: string,
             claims: Claims, attributes: map<string, string>)
    | SignOut(pid: Pid, proc: nat, id: Id)
    | DeleteBy(pid: Pid, proc: nat, target: Target)
    | Run(pid: Pid, choice: Choice)

  // ---- the store ----

  predicate Live(s: State, id: Id) {
    id in s.store && s.now <= s.store[id].expiresAt
  }

  /** Was stored at some point and cannot be read any more. */
  predicate Dead(s: State, id: Id) {
    id in s.history && !Live(s, id)
  }

  function Read(s: State, id: Id): Option<Session> {
    if Live(s, id) then Some(s.store[id].sess) else None
  }

  predicate CanUpdate(s: State, id: Id, expected: nat) {
    Live(s, id) && s.store[id].sess.version == expected
  }

  function Written(s: State, id: Id, sess: Session, ttl: int, computedAt: Time, how: How): State {
    s.(store := s.store[id := Entry(sess, s.now + ttl, Stamp(computedAt, s.now))],
       history := s.history[id := (if id in s.history then s.history[id] else []) + [Write(sess, how)]])
  }

  predicate LockFree(s: State, id: Id) {
    id !in s.locks || s.locks[id].until <= s.now
  }

  function Apply(s: State, p: Pid, e: Effect): State {
    match e
    case NoEffect => s
    case Create(id, sess, ttl, computedAt) => Written(s, id, sess, ttl, computedAt, Created)
    case Remove(id) => s.(store := s.store - {id})
    case Update(id, expected, sess, ttl, computedAt, how) =>
      if CanUpdate(s, id, expected) then Written(s, id, sess, ttl, computedAt, how) else s
    case Acquire(id) =>
      if LockFree(s, id) then s.(locks := s.locks[id := Lock(p, s.now + REFRESH_TIMEOUT)]) else s
    case Free(id) =>
      if id in s.locks && s.locks[id].holder == p then s.(locks := s.locks - {id}) else s
    case Redeem(id, token, resp) => s.(redeemed := s.redeemed + {(id, token, resp)})
  }

  // ---- one refresh (refresh.go) ----

  /** Returning from refreshSession runs the deferred release first. */
  function Return(f: Flight, outcome: Option<Session>): Flight {
    f.(at := if f.locked then Release else Finished, outcome := outcome)
  }

  function ReadInto(s: State, id: Id, f: Flight, ch: Choice): Flight {
    f.(found := if ch.Fault? then None else Read(s, id))
  }

  predicate Waiting(at: Point) {
    at.TryLock? || at.AwaitLock? || at.ReadWaiting? || at.ReconsiderWaiting? || at.CheckWait? || at.ReadLocked?
  }

  /** lockRefresh. A fault of the store fails the refresh as a transient error. */
  function StepLock(cfg: Config, s: State, id: Id, f: Flight, ch: Choice): (Flight, Effect)
    requires Waiting(f.at)
  {
    match f.at
    case TryLock =>
      if ch.Fault? then (f.(at := FailRead(false)), NoEffect)
      else if LockFree(s, id) then (f.(at := ReadLocked, locked := true), Acquire(id))
      else (f.(at := AwaitLock), NoEffect)
    case AwaitLock =>
      (f.(at := if ch.Fault? && s.now >= f.deadline then FailRead(false) else ReadWaiting), NoEffect)
    case ReadWaiting =>
      var g := ReadInto(s, id, f, ch);
      (if ch.Fault? then f.(at := FailRead(false))
       else if g.found.None? then Return(g, None)
       else g.(at := ReconsiderWaiting), NoEffect)
    case ReconsiderWaiting =>
      (if f.found.Some? && !NeedsRefresh(cfg, f.found.value, s.now) then Return(f, f.found)
       else f.(at := CheckWait), NoEffect)
    case CheckWait =>
      (f.(at := if s.now >= f.giveUp then FailRead(false) else TryLock), NoEffect)
    case ReadLocked =>
      var g := ReadInto(s, id, f, ch);
      (if ch.Fault? then f.(at := ReleaseFailing)
       else if g.found.None? then Return(g, None)
       else g.(at := ReconsiderLocked, current := g.found.value), NoEffect)
  }

  predicate Storing(at: Point) {
    at.ComputeTtl? || at.EndLifetime? || at.Store? || at.ReadAfterLoss? || at.Merge?
  }

  /** The refreshed session applied onto the one that is stored now. */
  function Rebase(job: Job, latest: Session): Job {
    var kept := if latest.lastActivity > job.updated.lastActivity
                then job.updated.(lastActivity := latest.lastActivity) else job.updated;
    job.(updated := kept.(version := latest.version + 1), expected := latest.version, attempt := job.attempt + 1)
  }

  /** After a lost compare-and-set: a session with fresh tokens is served, one that
      only recorded activity is written again, any other ends the refresh. */
  function StepMerge(cfg: Config, now: Time, f: Flight, job: Job): Flight {
    if f.found.Some? && f.found.value.version > job.expected && !NeedsRefresh(cfg, f.found.value, now) then
      Return(f, f.found)
    else if f.found.None? || job.attempt + 1 >= MAX_ACTIVITY_MERGE_ATTEMPTS
            || !OnlyActivityChanged(f.current, f.found.value) then
      Return(f, None)
    else
      f.(at := Store(Rebase(job, f.found.value)))
  }

  /** storeRefreshed. */
  function StepStore(cfg: Config, s: State, id: Id, f: Flight, ch: Choice): (Flight, Effect)
    requires Storing(f.at)
  {
    match f.at
    case ComputeTtl(updated, resp) =>
      var ttl := SessionTTLFor(cfg, updated, s.now);
      (f.(at := if ttl <= 0 then EndLifetime
                else Store(Job(updated, resp, ttl, s.now, f.current.version, 0))), NoEffect)
    case EndLifetime => (Return(f, None), if ch.Fault? then NoEffect else Remove(id))
    case Store(job) =>
      if ch.Fault? then (Return(f, None), NoEffect)
      else (if CanUpdate(s, id, job.expected) then Return(f, Some(job.updated)) else f.(at := ReadAfterLoss(job)),
            Update(id, job.expected, job.updated, job.ttl, job.computedAt, Refreshed(f.current, job.resp)))
    case ReadAfterLoss(job) => (ReadInto(s, id, f, ch).(at := Merge(job)), NoEffect)
    case Merge(job) => (StepMerge(cfg, s.now, f, job), NoEffect)
  }

  predicate Failing(at: Point) {
    at.FailRead? || at.FailDecide? || at.FailDelete?
  }

  /** refreshFailed. */
  function StepFail(cfg: Config, s: State, id: Id, f: Flight, ch: Choice): (Flight, Effect)
    requires Failing(f.at)
  {
    match f.at
    case FailRead(permanent) => (ReadInto(s, id, f, ch).(at := FailDecide(permanent)), NoEffect)
    case FailDecide(permanent) =>
      (if f.found.Some? && !NeedsRefresh(cfg, f.found.value, s.now) then Return(f, f.found)
       else if !permanent && s.now < f.current.expiry + cfg.outageGrace then Return(f, Some(f.current))
       else f.(at := FailDelete), NoEffect)
    case FailDelete => (Return(f, None), if ch.Fault? then NoEffect else Remove(id))
  }

  /** The token endpoint answers. */
  function StepExchange(id: Id, f: Flight, ch: Choice): (Flight, Effect) {
    match ch
    case Tokens(resp) =>
      (f.(at := if Acceptable(f.current, resp) then ComputeTtl(ApplyTokens(f.current, resp), resp)
                else FailRead(true)),
       Redeem(id, f.current.refresh, resp))
    case BadIdToken => (f.(at := FailRead(true)), NoEffect)
    case Rejected => (f.(at := FailRead(true)), NoEffect)
    case Unavailable => (f.(at := FailRead(false)), NoEffect)
    case _ => (f, NoEffect)
  }

  /** refreshSession outside the functions it calls. */
  function StepMain(cfg: Config, s: State, id: Id, f: Flight, ch: Choice): (Flight, Effect)
    requires !Waiting(f.at) && !Storing(f.at) && !Failing(f.at) && !f.at.Exchanging?
  {
    match f.at
    case ReadStored =>
      var g := ReadInto(s, id, f, ch);
      (if g.found.None? then Return(g, None) else g.(at := Reconsider, current := g.found.value), NoEffect)
    case Reconsider =>
      (if !NeedsRefresh(cfg, f.current, s.now) then Return(f, Some(f.current))
       else if cfg.locker then f.(at := TryLock, giveUp := s.now + cfg.lockWait)
       else f.(at := Ready), NoEffect)
    case ReconsiderLocked =>
      (if NeedsRefresh(cfg, f.current, s.now) then f.(at := Ready) else Return(f, Some(f.current)), NoEffect)
    case Ready => (f.(at := if s.now < f.deadline then Exchanging else FailRead(false)), NoEffect)
    case Release => (f.(at := Finished, locked := false), if ch.Fault? then NoEffect else Free(id))
    case ReleaseFailing => (f.(at := FailRead(false), locked := false), if ch.Fault? then NoEffect else Free(id))
    case Finished => (f, NoEffect)
  }

  function StepFlight(cfg: Config, s: State, id: Id, f: Flight, ch: Choice): (Flight, Effect) {
    if Waiting(f.at) then StepLock(cfg, s, id, f, ch)
    else if Storing(f.at) then StepStore(cfg, s, id, f, ch)
    else if Failing(f.at) then StepFail(cfg, s, id, f, ch)
    else if f.at.Exchanging? then StepExchange(id, f, ch)
    else StepMain(cfg, s, id, f, ch)
  }

  /** The pid whose flight for this session is running in the same process. */
  predicate Leads(s: State, proc: nat, id: Id, leader: Pid) {
    && leader in s.handlers
    && s.handlers[leader].pc.Refresh?
    && s.handlers[leader].proc == proc && s.handlers[leader].id == id
  }

  // ---- deletion by subject or provider session (backchannel.go) ----

  predicate Indexed(target: Target, sess: Session) {
    match target
    case BySubject(subject) => sess.userId == subject
    case BySid(sid, _) => sess.sid == sid
  }

  predicate Matches(target: Target, sess: Session) {
    match target
    case BySubject(subject) => sess.userId == subject
    case BySid(sid, subject) => sess.sid == sid && (subject == "" || sess.userId == subject)
  }

  predicate WellFormed(target: Target) {
    match target case BySubject(subject) => subject != "" case BySid(sid, _) => sid != ""
  }

  function LiveMatches(s: State, target: Target): set<Id> {
    set id | id in s.store && Live(s, id) && Indexed(target, s.store[id].sess)
  }

  function FoundBy(s: State, target: Target): map<Id, Session> {
    map id | id in LiveMatches(s, target) :: s.store[id].sess
  }

  function NextVisit(w: Progress): Pc {
    if w.rest == [] then Dropped(w) else Visit(w)
  }

  function StepDeletion(s: State, pc: Pc, ch: Choice): (Pc, Effect)
    requires pc.Lookup? || pc.Visit? || pc.Drop?
  {
    match pc
    case Lookup(target) =>
      // The index may list stale ids besides the live ones.
      if !WellFormed(target) || ch.Fault? then (Failed, NoEffect)
      else if ch.Ids? && forall id <- LiveMatches(s, target) :: id in ch.ids then
        (NextVisit(Progress(target, FoundBy(s, target), ch.ids, map[], {})), NoEffect)
      else (pc, NoEffect)
    case Visit(w) =>
      if ch.Fault? || w.rest == [] then (Failed, NoEffect)
      else if !Live(s, w.rest[0]) then (NextVisit(w.(rest := w.rest[1..])), NoEffect)
      else if Matches(w.target, s.store[w.rest[0]].sess) then (Drop(w), NoEffect)
      else (NextVisit(w.(rest := w.rest[1..], spared := w.spared[w.rest[0] := s.store[w.rest[0]].sess])), NoEffect)
    case Drop(w) =>
      if ch.Fault? || w.rest == [] then (Failed, NoEffect)
      else (NextVisit(w.(rest := w.rest[1..], deleted := w.deleted + {w.rest[0]})), Remove(w.rest[0]))
  }

  // ---- handlers ----

  function StepActivity(cfg: Config, s: State, h: Handler, ch: Choice): (Pc, Effect)
    requires h.pc.Record? || h.pc.WriteActivity?
  {
    match h.pc
    case Record(sess) =>
      if h.background || cfg.idleTimeout <= 0 || s.now - LastActivity(sess) < ACTIVITY_WRITE_INTERVAL then
        (Done(Some(sess)), NoEffect)
      else
        var updated := sess.(lastActivity := s.now, version := sess.version + 1);
        var ttl := SessionTTLFor(cfg, updated, s.now);
        (if ttl <= 0 then Done(Some(sess)) else WriteActivity(sess, updated, ttl, s.now), NoEffect)
    case WriteActivity(sess, updated, ttl, computedAt) =>
      if ch.Fault? then (Done(Some(sess)), NoEffect)
      else (Done(Some(if CanUpdate(s, h.id, sess.version) then updated else sess)),
            Update(h.id, sess.version, updated, ttl, computedAt, Activity))
  }

  /** SessionFromRequest after the refresh it led or joined. */
  function Resume(outcome: Option<Session>): Pc {
    if outcome.Some? then Record(outcome.value) else Done(None)
  }

  predicate Entering(pc: Pc) {
    pc.Load? || pc.Check? || pc.Expire? || pc.Decide? || pc.Join?
  }

  /** liveSession, then the shared refresh per process and session of refreshIfNeeded. */
  function StepRequest(cfg: Config, s: State, h: Handler, ch: Choice): (Pc, Effect)
    requires Entering(h.pc)
  {
    match h.pc
    case Load => (if ch.Fault? || !Live(s, h.id) then Done(None) else Check(s.store[h.id].sess), NoEffect)
    case Check(sess) => (if LifetimeExceeded(cfg, sess, s.now) then Expire else Decide(sess), NoEffect)
    case Expire => (Done(None), if ch.Fault? then NoEffect else Remove(h.id))
    case Decide(sess) =>
      (if !NeedsRefresh(cfg, sess, s.now) then Record(sess)
       else if forall p <- s.handlers :: !Leads(s, h.proc, h.id, p) then
         Refresh(Flight(ReadStored, s.now + REFRESH_TIMEOUT, s.now, false, sess, None, None))
       else if ch.Follow? && Leads(s, h.proc, h.id, ch.leader) then Join(ch.leader)
       else h.pc, NoEffect)
    case Join(leader) =>
      (if leader in s.handlers && s.handlers[leader].led.Some? then Resume(s.handlers[leader].led.value)
       else h.pc, NoEffect)
  }

  function StepHandler(cfg: Config, s: State, h: Handler, ch: Choice): (Pc, Effect) {
    if Entering(h.pc) then StepRequest(cfg, s, h, ch)
    else if h.pc.Record? || h.pc.WriteActivity? then StepActivity(cfg, s, h, ch)
    else if h.pc.Lookup? || h.pc.Visit? || h.pc.Drop? then StepDeletion(s, h.pc, ch)
    else if h.pc.Refresh? then
      if h.pc.flight.at.Finished? then (Resume(h.pc.flight.outcome), NoEffect)
      else
        var (f, e) := StepFlight(cfg, s, h.id, h.pc.flight, ch);
        (Refresh(f), e)
    else if h.pc.Callback? then
      if ch.Fault? then (Failed, NoEffect)
      else (SignedIn, Create(h.id, h.pc.sess, h.pc.ttl, h.pc.computedAt))
    else if h.pc.Logout? then
      if ch.Fault? then (Failed, NoEffect) else (SignedOut, Remove(h.id))
    else (h.pc, NoEffect)
  }

  /** The outcome a finished flight leaves for those who joined it. */
  function Led(h: Handler): Option<Option<Session>> {
    if h.pc.Refresh? && h.pc.flight.at.Finished? then Some(h.pc.flight.outcome) else h.led
  }

  // ---- runs ----

  /** An exchange ends before its context deadline, so time does not pass it. */
  predicate WithinDeadlines(s: State, to: Time) {
    forall p <- s.handlers ::
      s.handlers[p].pc.Refresh? && s.handlers[p].pc.flight.at.Exchanging? ==> to < s.handlers[p].pc.flight.deadline
  }

  predicate Enabled(s: State, e: Event) {
    match e
    case Tick(to) => s.now <= to && WithinDeadlines(s, to)
    case Sweep(_) => true
    case Request(pid, _, _, _) => pid !in s.handlers
    case SignIn(pid, _, id, _, _, _, _, _) => pid !in s.handlers && id !in s.issued
    case SignOut(pid, _, _) => pid !in s.handlers
    case DeleteBy(pid, _, _) => pid !in s.handlers
    case Run(pid, _) => pid in s.handlers
  }

  function Spawn(s: State, pid: Pid, proc: nat, id: Id, background: bool, pc: Pc): State {
    s.(handlers := s.handlers[pid := Handler(proc, id, s.now, background, pc, None)])
  }

  function RunHandler(cfg: Config, s: State, pid: Pid, ch: Choice): State
    requires pid in s.handlers
  {
    var h := s.handlers[pid];
    var (pc, e) := StepHandler(cfg, s, h, ch);
    var t := Apply(s, pid, e);
    t.(handlers := t.handlers[pid := h.(pc := pc, led := Led(h))])
  }

  /** One event; an event that is not enabled changes nothing. */
  function Next(cfg: Config, s: State, e: Event): State {
    if !Enabled(s, e) then s else
    match e
    case Tick(to) => s.(now := to)
    case Sweep(ids) => s.(store := map id | id in s.store && (id !in ids || Live(s, id)) :: s.store[id])
    case Request(pid, proc, id, background) => Spawn(s, pid, proc, id, background, Load)
    case SignIn(pid, proc, id, subject, resp, idToken, claims, attributes) =>
      var sess := NewSession(subject, resp, idToken, claims, attributes, s.now);
      Spawn(s, pid, proc, id, false, Callback(sess, SessionTTLFor(cfg, sess, s.now), s.now))
      .(issued := s.issued + {id})
    case SignOut(pid, proc, id) => Spawn(s, pid, proc, id, false, Logout)
    case DeleteBy(pid, proc, target) => Spawn(s, pid, proc, "", false, Lookup(target))
    case Run(pid, ch) => RunHandler(cfg, s, pid, ch)
  }

  function Exec(cfg: Config, s: State, events: seq<Event>): State
    decreases |events|
  {
    if events == [] then s else Exec(cfg, Next(cfg, s, events[0]), events[1..])
  }

  /** No handler has started; sessions of earlier runs may be in the store. */
  predicate Init(s: State) {
    && s.now > ZERO_TIME
    && s.handlers == map[] && s.locks == map[] && s.redeemed == {}
    && s.history.Keys == s.store.Keys && s.store.Keys <= s.issued
    && forall id <- s.store :: s.history[id] == [Write(s.store[id].sess, Created)] && s.store[id].stamp == Earlier
  }
}
