/** Two token exchanges for one session never overlap: across replicas because of the
    refresh lock, within a process because of the shared flight. */
module RefreshExclusion {
  import opened Basics
  import opened Sessions
  import opened SessionProtocol
  import SessionInvariant

  predicate Flying(s: State, p: Pid) {
    p in s.handlers && s.handlers[p].pc.Refresh?
  }

  predicate ExchangingNow(s: State, p: Pid) {
    Flying(s, p) && s.handlers[p].pc.flight.at.Exchanging?
  }

  /** Points that a flight under a locker reaches only with the lock taken. */
  predicate NeedsLock(at: Point) {
    at.ReadLocked? || at.ReconsiderLocked? || at.Ready? || at.Exchanging?
  }

  /** Until the flight's deadline nobody else can have taken the lock it took: the
      deadline was set before the lock was tried, and both last equally long. */
  predicate LockInv(cfg: Config, s: State, p: Pid, id: Id, f: Flight) {
    && f.deadline <= s.now + REFRESH_TIMEOUT
    && (f.locked && s.now < f.deadline ==>
          id in s.locks && s.locks[id].holder == p && f.deadline <= s.locks[id].until)
    && (cfg.locker && NeedsLock(f.at) ==> f.locked)
    && (f.at.Exchanging? ==> s.now < f.deadline)
  }

  ghost predicate LocksInv(cfg: Config, s: State) {
    forall p | Flying(s, p) :: LockInv(cfg, s, p, s.handlers[p].id, s.handlers[p].pc.flight)
  }

  /** At most one flight per process and session. */
  ghost predicate FlightsInv(s: State) {
    forall p, q | Flying(s, p) && Flying(s, q)
                  && s.handlers[p].proc == s.handlers[q].proc && s.handlers[p].id == s.handlers[q].id :: p == q
  }

  /** The step leaves the flight's lock, deadline and the locks alone. */
  predicate LeavesLock(f: Flight, f': Flight, e: Effect) {
    f'.deadline == f.deadline && f'.locked == f.locked && !e.Acquire? && !e.Free?
  }

  lemma StoreLeavesLock(cfg: Config, s: State, id: Id, f: Flight, ch: Choice)
    requires Storing(f.at)
    ensures var (f', e) := StepStore(cfg, s, id, f, ch); LeavesLock(f, f', e) && !NeedsLock(f'.at)
  {
  }

  lemma FailLeavesLock(cfg: Config, s: State, id: Id, f: Flight, ch: Choice)
    requires Failing(f.at)
    ensures var (f', e) := StepFail(cfg, s, id, f, ch); LeavesLock(f, f', e) && !NeedsLock(f'.at)
  {
  }

  lemma ExchangeLeavesLock(id: Id, f: Flight, ch: Choice)
    ensures var (f', e) := StepExchange(id, f, ch); LeavesLock(f, f', e) && (NeedsLock(f'.at) ==> f' == f)
  {
  }

  lemma LeftLockStays(cfg: Config, s: State, p: Pid, id: Id, f: Flight, f': Flight, e: Effect)
    requires LockInv(cfg, s, p, id, f) && LeavesLock(f, f', e) && (NeedsLock(f'.at) ==> f' == f)
    ensures LockInv(cfg, Apply(s, p, e), p, id, f')
  {
  }

  lemma WaitKeepsLock(cfg: Config, s: State, p: Pid, id: Id, f: Flight, ch: Choice)
    requires LockInv(cfg, s, p, id, f) && Waiting(f.at)
    ensures var (f', e) := StepLock(cfg, s, id, f, ch); LockInv(cfg, Apply(s, p, e), p, id, f')
  {
    hide Read, NeedsRefresh;
  }

  lemma MainKeepsLock(cfg: Config, s: State, p: Pid, id: Id, f: Flight, ch: Choice)
    requires LockInv(cfg, s, p, id, f)
    requires !Waiting(f.at) && !Storing(f.at) && !Failing(f.at) && !f.at.Exchanging?
    ensures var (f', e) := StepMain(cfg, s, id, f, ch); LockInv(cfg, Apply(s, p, e), p, id, f')
  {
    hide Read, NeedsRefresh;
  }

  lemma FlightKeepsLock(cfg: Config, s: State, p: Pid, id: Id, f: Flight, ch: Choice)
    requires LockInv(cfg, s, p, id, f)
    ensures var (f', e) := StepFlight(cfg, s, id, f, ch); LockInv(cfg, Apply(s, p, e), p, id, f')
  {
    hide StepLock, StepMain, StepStore, StepFail, StepExchange, LockInv, Apply, LeavesLock;
    var (f', e) := StepFlight(cfg, s, id, f, ch);
    if Waiting(f.at) {
      WaitKeepsLock(cfg, s, p, id, f, ch);
    } else if Storing(f.at) {
      StoreLeavesLock(cfg, s, id, f, ch);
      LeftLockStays(cfg, s, p, id, f, f', e);
    } else if Failing(f.at) {
      FailLeavesLock(cfg, s, id, f, ch);
      LeftLockStays(cfg, s, p, id, f, f', e);
    } else if f.at.Exchanging? {
      ExchangeLeavesLock(id, f, ch);
      LeftLockStays(cfg, s, p, id, f, f', e);
    } else {
      MainKeepsLock(cfg, s, p, id, f, ch);
    }
  }

  /** An effect on the locks touches only a free lock or the actor's own. */
  lemma OthersKeepLock(cfg: Config, s: State, p: Pid, e: Effect, q: Pid, id: Id, f: Flight)
    requires p != q && LockInv(cfg, s, q, id, f)
    ensures LockInv(cfg, Apply(s, p, e), q, id, f)
  {
  }

  /** Only a request that needs a refresh and finds no flight in its process starts
      one, and it has just begun. */
  lemma OnlyDecideTakesOff(cfg: Config, s: State, h: Handler, ch: Choice)
    ensures var (pc, e) := StepHandler(cfg, s, h, ch);
            pc.Refresh? && !h.pc.Refresh? ==>
              && e.NoEffect? && pc.flight.at.ReadStored? && !pc.flight.locked
              && pc.flight.deadline == s.now + REFRESH_TIMEOUT
              && forall p | p in s.handlers :: !Leads(s, h.proc, h.id, p)
  {
    hide StepFlight, StepActivity, StepDeletion;
    if h.pc.Record? || h.pc.WriteActivity? { ActivityStaysDown(cfg, s, h, ch); }
    if h.pc.Lookup? || h.pc.Visit? || h.pc.Drop? { DeletionStaysDown(s, h.pc, ch); }
  }

  lemma ActivityStaysDown(cfg: Config, s: State, h: Handler, ch: Choice)
    requires h.pc.Record? || h.pc.WriteActivity?
    ensures !StepActivity(cfg, s, h, ch).0.Refresh?
  {
  }

  lemma DeletionStaysDown(s: State, pc: Pc, ch: Choice)
    requires pc.Lookup? || pc.Visit? || pc.Drop?
    ensures !StepDeletion(s, pc, ch).0.Refresh?
  {
  }

  lemma RunKeepsLocks(cfg: Config, s: State, p: Pid, ch: Choice)
    requires LocksInv(cfg, s) && p in s.handlers
    ensures LocksInv(cfg, RunHandler(cfg, s, p, ch))
  {
    hide StepFlight, StepRequest, StepActivity, StepDeletion, LockInv, Apply;
    var h, t := s.handlers[p], RunHandler(cfg, s, p, ch);
    var (pc, e) := StepHandler(cfg, s, h, ch);
    var u := Apply(s, p, e);
    OnlyDecideTakesOff(cfg, s, h, ch);
    SessionInvariant.ApplyKeepsHandlers(s, p, e);
    forall q | Flying(t, q) ensures LockInv(cfg, t, q, t.handlers[q].id, t.handlers[q].pc.flight) {
      if q != p {
        assert Flying(s, q);
        OthersKeepLock(cfg, s, p, e, q, t.handlers[q].id, t.handlers[q].pc.flight);
      } else if h.pc.Refresh? {
        assert Flying(s, p);
        FlightKeepsLock(cfg, s, p, h.id, h.pc.flight, ch);
      } else {
        TakeOffLock(cfg, u, p, h.id, pc.flight);
      }
      SameLock(cfg, u, t, q, t.handlers[q].id, t.handlers[q].pc.flight);
    }
  }

  lemma TakeOffLock(cfg: Config, s: State, p: Pid, id: Id, f: Flight)
    requires f.at.ReadStored? && !f.locked && f.deadline == s.now + REFRESH_TIMEOUT
    ensures LockInv(cfg, s, p, id, f)
  {
  }

  lemma SameLock(cfg: Config, s: State, t: State, p: Pid, id: Id, f: Flight)
    requires LockInv(cfg, s, p, id, f) && s.locks == t.locks && s.now == t.now
    ensures LockInv(cfg, t, p, id, f)
  {
  }

  lemma RunKeepsFlights(cfg: Config, s: State, p: Pid, ch: Choice)
    requires FlightsInv(s) && p in s.handlers
    ensures FlightsInv(RunHandler(cfg, s, p, ch))
  {
    hide StepFlight, StepRequest, StepActivity, StepDeletion, Apply;
    var h, t := s.handlers[p], RunHandler(cfg, s, p, ch);
    OnlyDecideTakesOff(cfg, s, h, ch);
    SessionInvariant.ApplyKeepsHandlers(s, p, StepHandler(cfg, s, h, ch).1);
    forall q, r | Flying(t, q) && Flying(t, r) && t.handlers[q].proc == t.handlers[r].proc && t.handlers[q].id == t.handlers[r].id
      ensures q == r
    {
      assert q != p ==> Flying(s, q) && Leads(s, t.handlers[q].proc, t.handlers[q].id, q);
      assert r != p ==> Flying(s, r) && Leads(s, t.handlers[r].proc, t.handlers[r].id, r);
    }
  }

  /** An event outside the handlers starts no flight, and lets no time pass an exchange. */
  lemma QuietEventFrame(cfg: Config, s: State, e: Event)
    requires !e.Run?
    ensures var t := Next(cfg, s, e);
            && t.locks == s.locks && s.now <= t.now && (t.now == s.now || WithinDeadlines(s, t.now))
            && forall p | Flying(t, p) :: Flying(s, p) && t.handlers[p] == s.handlers[p]
  {
    hide RunHandler, SessionTTLFor, NewSession, WithinDeadlines;
  }

  lemma NextKeepsExclusion(cfg: Config, s: State, e: Event)
    requires LocksInv(cfg, s) && FlightsInv(s)
    ensures LocksInv(cfg, Next(cfg, s, e)) && FlightsInv(Next(cfg, s, e))
  {
    if e.Run? {
      hide RunHandler, LocksInv, FlightsInv;
      if Enabled(s, e) {
        RunKeepsLocks(cfg, s, e.pid, e.choice);
        RunKeepsFlights(cfg, s, e.pid, e.choice);
      }
    } else {
      QuietEventFrame(cfg, s, e);
      hide Next, NeedsLock;
    }
  }

  lemma {:induction false} ExecKeepsExclusion(cfg: Config, s: State, events: seq<Event>)
    requires LocksInv(cfg, s) && FlightsInv(s)
    ensures LocksInv(cfg, Exec(cfg, s, events)) && FlightsInv(Exec(cfg, s, events))
    decreases |events|
  {
    hide Next, LocksInv, FlightsInv;
    if events != [] {
      NextKeepsExclusion(cfg, s, events[0]);
      ExecKeepsExclusion(cfg, Next(cfg, s, events[0]), events[1..]);
    }
  }

  /** In every run, two exchanges for one session that go on at the same time are the
      same exchange: always when the store locks refreshes, and within one process
      even when it does not. */
  lemma ExchangesNeverOverlap(cfg: Config, s0: State, events: seq<Event>, p: Pid, q: Pid)
    requires Init(s0)
    ensures var s := Exec(cfg, s0, events);
            && ExchangingNow(s, p) && ExchangingNow(s, q) && s.handlers[p].id == s.handlers[q].id
            && (cfg.locker || s.handlers[p].proc == s.handlers[q].proc)
            ==> p == q
  {
    hide Next;
    ExecKeepsExclusion(cfg, s0, events);
    var s := Exec(cfg, s0, events);
    assert Flying(s, p) ==> LockInv(cfg, s, p, s.handlers[p].id, s.handlers[p].pc.flight);
    assert Flying(s, q) ==> LockInv(cfg, s, q, s.handlers[q].id, s.handlers[q].pc.flight);
  }

  // ---- a lock that is not given back ----

  /** No lock lasts longer than a refresh may take. */
  predicate LeaseInv(s: State) {
    forall id <- s.locks :: s.locks[id].until <= s.now + 30_000
  }

  lemma NextKeepsLeases(cfg: Config, s: State, e: Event)
    requires LeaseInv(s)
    ensures LeaseInv(Next(cfg, s, e))
  {
    hide StepHandler, SessionTTLFor, NewSession, WithinDeadlines;
  }

  lemma {:induction false} ExecKeepsLeases(cfg: Config, s: State, events: seq<Event>)
    requires LeaseInv(s)
    ensures LeaseInv(Exec(cfg, s, events))
    decreases |events|
  {
    hide Next, LeaseInv;
    if events != [] {
      NextKeepsLeases(cfg, s, events[0]);
      ExecKeepsLeases(cfg, Next(cfg, s, events[0]), events[1..]);
    }
  }

  /** In every run: 30 seconds after any moment a lock is free, unless somebody has taken it since. So
      a replica that dies with it keeps refreshes waiting no longer than that. */
  lemma LeaseEnds(cfg: Config, s0: State, before: seq<Event>, after: seq<Event>, id: Id)
    requires Init(s0)
    ensures var s := Exec(cfg, s0, before);
            var t := Exec(cfg, s, after);
            t.now >= s.now + 30_000 && (id in t.locks ==> id in s.locks && t.locks[id] == s.locks[id]) ==> LockFree(t, id)
  {
    hide Next, Exec;
    ExecKeepsLeases(cfg, s0, before);
  }
}
