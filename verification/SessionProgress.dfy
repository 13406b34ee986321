/** What the session protocol achieves: a handler that is left alone, with a store that works
    and a provider that answers, gets done what it is there for. */
module SessionProgress {
  import opened Basics
  import opened Sessions
  import opened SessionProtocol
  import OutageGrace
  import opened SessionInvariant
  import SessionMerge

  /** What a handler that is left alone is answered: how the token endpoint responds, and which
      ids the index lists. */
  datatype Answers = Answers(exchange: Choice, ids: seq<Id>)

  /** The answer to p's next step; no store operation fails. */
  function AnswerTo(s: State, p: Pid, a: Answers): Choice {
    if p !in s.handlers then Go
    else if s.handlers[p].pc.Refresh? && s.handlers[p].pc.flight.at.Exchanging? then a.exchange
    else if s.handlers[p].pc.Lookup? then Ids(a.ids)
    else Go
  }

  /** The run in which p alone takes n steps. */
  function Drive(cfg: Config, a: Answers, s: State, p: Pid, n: nat): State
    decreases n
  {
    if n == 0 then s else Drive(cfg, a, Next(cfg, s, Run(p, AnswerTo(s, p, a))), p, n - 1)
  }

  /** The run of p alone comes to t. */
  ghost predicate Alone(cfg: Config, a: Answers, s: State, t: State, p: Pid) {
    exists n: nat :: Drive(cfg, a, s, p, n) == t
  }

  /** The run of p alone comes to t and stays there. */
  ghost predicate Ends(cfg: Config, a: Answers, s: State, t: State, p: Pid) {
    exists n: nat :: RestsFrom(cfg, a, s, t, p, n)
  }

  ghost predicate RestsFrom(cfg: Config, a: Answers, s: State, t: State, p: Pid, n: nat) {
    forall m: nat | m >= n :: Drive(cfg, a, s, p, m) == t
  }

  lemma AloneStep(cfg: Config, a: Answers, s: State, p: Pid)
    ensures Alone(cfg, a, s, Next(cfg, s, Run(p, AnswerTo(s, p, a))), p)
  {
    hide Next, AnswerTo;
    var t := Next(cfg, s, Run(p, AnswerTo(s, p, a)));
    assert Drive(cfg, a, t, p, 0) == t;
    assert Drive(cfg, a, s, p, 1) == t;
  }

  lemma {:induction false} DriveOn(cfg: Config, a: Answers, s: State, p: Pid, n: nat, m: nat)
    ensures Drive(cfg, a, s, p, n + m) == Drive(cfg, a, Drive(cfg, a, s, p, n), p, m)
    decreases n
  {
    hide Next, AnswerTo;
    if n > 0 { DriveOn(cfg, a, Next(cfg, s, Run(p, AnswerTo(s, p, a))), p, n - 1, m); }
  }

  lemma AloneOn(cfg: Config, a: Answers, s: State, t: State, u: State, p: Pid)
    requires Alone(cfg, a, s, t, p) && Alone(cfg, a, t, u, p)
    ensures Alone(cfg, a, s, u, p)
  {
    hide Drive;
    var n: nat :| Drive(cfg, a, s, p, n) == t;
    var m: nat :| Drive(cfg, a, t, p, m) == u;
    DriveOn(cfg, a, s, p, n, m);
  }

  lemma {:induction false} RestingStays(cfg: Config, a: Answers, t: State, p: Pid, m: nat)
    requires Next(cfg, t, Run(p, AnswerTo(t, p, a))) == t
    ensures Drive(cfg, a, t, p, m) == t
    decreases m
  {
    hide Next, AnswerTo;
    if m > 0 { RestingStays(cfg, a, t, p, m - 1); }
  }

  /** A handler that is done, one way or another. */
  lemma AloneEnds(cfg: Config, a: Answers, s: State, t: State, p: Pid)
    requires Alone(cfg, a, s, t, p) && p in t.handlers && (t.handlers[p].pc.Done? || t.handlers[p].pc.Dropped?)
    ensures Ends(cfg, a, s, t, p)
  {
    var n: nat :| Drive(cfg, a, s, p, n) == t;
    assert Next(cfg, t, Run(p, AnswerTo(t, p, a))) == t by {
      hide Drive;
      assert t.handlers[p := t.handlers[p]] == t.handlers;
    }
    hide Next, AnswerTo, Drive;
    forall m: nat | m >= n ensures Drive(cfg, a, s, p, m) == t {
      DriveOn(cfg, a, s, p, n, m - n);
      RestingStays(cfg, a, t, p, m - n);
    }
    assert RestsFrom(cfg, a, s, t, p, n);
  }

  /** A choice without a fault: the answer, or anything where no answer is awaited; while one is
      awaited, nothing may happen yet. Nobody else's refresh is joined. */
  predicate FaultFree(s: State, p: Pid, a: Answers, ch: Choice) {
    p in s.handlers && !ch.Fault? && !ch.Follow?
    && var pc := s.handlers[p].pc;
    && (pc.Refresh? && pc.flight.at.Exchanging? ==> ch == a.exchange || ch.Go?)
    && (pc.Lookup? ==> ch == Ids(a.ids) || ch.Go?)
  }

  predicate FaultFreeRun(cfg: Config, a: Answers, s: State, events: seq<Event>, p: Pid)
    decreases |events|
  {
    events == [] ||
    (events[0].Run? && events[0].pid == p && FaultFree(s, p, a, events[0].choice)
     && FaultFreeRun(cfg, a, Next(cfg, s, events[0]), events[1..], p))
  }

  lemma ChoiceMattersOnlyThere(cfg: Config, s: State, h: Handler, ch: Choice)
    requires !ch.Fault? && !ch.Follow? && !h.pc.Lookup? && !(h.pc.Refresh? && h.pc.flight.at.Exchanging?)
    ensures StepHandler(cfg, s, h, ch) == StepHandler(cfg, s, h, Go)
  {
    hide NeedsRefresh, LifetimeExceeded, SessionTTLFor, StepMerge;
  }

  lemma WaitingForAnswer(cfg: Config, s: State, h: Handler)
    requires (h.pc.Lookup? && WellFormed(h.pc.target)) || (h.pc.Refresh? && h.pc.flight.at.Exchanging?)
    ensures StepHandler(cfg, s, h, Go) == (h.pc, NoEffect)
  {
  }

  lemma FaultFreeStep(cfg: Config, a: Answers, s: State, p: Pid, ch: Choice)
    requires FaultFree(s, p, a, ch) && (s.handlers[p].pc.Lookup? ==> WellFormed(s.handlers[p].pc.target))
    ensures var t := Next(cfg, s, Run(p, ch)); t == s || t == Next(cfg, s, Run(p, AnswerTo(s, p, a)))
  {
    var h := s.handlers[p];
    if h.pc.Lookup? || (h.pc.Refresh? && h.pc.flight.at.Exchanging?) {
      WaitingForAnswer(cfg, s, h);
      hide StepHandler;
      if ch.Go? { assert s.handlers[p := h] == s.handlers; }
    } else {
      ChoiceMattersOnlyThere(cfg, s, h, ch);
      hide StepHandler;
    }
  }

  /** No request is left to look a malformed target up. */
  predicate NoBadLookup(s: State, p: Pid) {
    p in s.handlers && s.handlers[p].pc.Lookup? ==> WellFormed(s.handlers[p].pc.target)
  }

  lemma NoBadLookupStays(cfg: Config, s: State, p: Pid, ch: Choice)
    requires NoBadLookup(s, p) && p in s.handlers
    ensures NoBadLookup(Next(cfg, s, Run(p, ch)), p)
  {
    hide StepFlight, NeedsRefresh, LifetimeExceeded, SessionTTLFor, Apply;
    ApplyKeepsHandlers(s, p, StepHandler(cfg, s, s.handlers[p], ch).1);
  }

  /** Every fault-free run of p is the run of p alone, up to waiting. */
  lemma {:induction false} FaultFreeIsAlone(cfg: Config, a: Answers, s: State, events: seq<Event>, p: Pid)
    requires FaultFreeRun(cfg, a, s, events, p) && NoBadLookup(s, p)
    ensures Alone(cfg, a, s, Exec(cfg, s, events), p)
    decreases |events|
  {
    hide Next, FaultFree, AnswerTo, Alone, NoBadLookup;
    if events == [] {
      AloneNone(cfg, a, s, p);
    } else {
      var t := Next(cfg, s, events[0]);
      assert t == s || t == Next(cfg, s, Run(p, AnswerTo(s, p, a))) by { FaultFreeOne(cfg, a, s, p, events[0].choice); }
      assert NoBadLookup(t, p) by { NoBadLookupOne(cfg, a, s, p, events[0].choice); }
      FaultFreeIsAlone(cfg, a, t, events[1..], p);
      if t != s {
        AloneStep(cfg, a, s, p);
        AloneOn(cfg, a, s, t, Exec(cfg, s, events), p);
      }
    }
  }

  lemma FaultFreeOne(cfg: Config, a: Answers, s: State, p: Pid, ch: Choice)
    requires FaultFree(s, p, a, ch) && NoBadLookup(s, p)
    ensures var t := Next(cfg, s, Run(p, ch)); t == s || t == Next(cfg, s, Run(p, AnswerTo(s, p, a)))
  {
    hide Next, AnswerTo;
    FaultFreeStep(cfg, a, s, p, ch);
  }

  lemma NoBadLookupOne(cfg: Config, a: Answers, s: State, p: Pid, ch: Choice)
    requires FaultFree(s, p, a, ch) && NoBadLookup(s, p)
    ensures NoBadLookup(Next(cfg, s, Run(p, ch)), p)
  {
    hide Next, NoBadLookup;
    NoBadLookupStays(cfg, s, p, ch);
  }

  /** Whatever p's run alone ends in, every fault-free run of p after which p is done ends in. */
  lemma FaultFreeRunsEnd(cfg: Config, a: Answers, s: State, t: State, events: seq<Event>, p: Pid)
    requires Ends(cfg, a, s, t, p) && FaultFreeRun(cfg, a, s, events, p) && NoBadLookup(s, p)
    ensures var u := Exec(cfg, s, events);
            p in u.handlers && (u.handlers[p].pc.Done? || u.handlers[p].pc.Dropped?) ==> u == t
  {
    hide Next, Exec, FaultFreeRun, NoBadLookup, Drive;
    var u := Exec(cfg, s, events);
    FaultFreeIsAlone(cfg, a, s, events, p);
    if p in u.handlers && (u.handlers[p].pc.Done? || u.handlers[p].pc.Dropped?) {
      AloneEnds(cfg, a, s, u, p);
      var n: nat :| RestsFrom(cfg, a, s, t, p, n);
      var m: nat :| RestsFrom(cfg, a, s, u, p, m);
      assert Drive(cfg, a, s, p, n + m) == t;
      assert Drive(cfg, a, s, p, n + m) == u;
    }
  }

  predicate At(s: State, p: Pid, id: Id, pc: Pc) {
    p in s.handlers && s.handlers[p].id == id && s.handlers[p].pc == pc
  }

  predicate Flies(s: State, p: Pid, id: Id, f: Flight) { At(s, p, id, Refresh(f)) }

  lemma HandlerMoves(cfg: Config, a: Answers, s: State, p: Pid, id: Id, pc: Pc, ch: Choice)
    requires At(s, p, id, pc) && ch == AnswerTo(s, p, a)
    ensures var (pc', e) := StepHandler(cfg, s, s.handlers[p], ch);
            var t := Next(cfg, s, Run(p, ch));
            At(t, p, id, pc') && t.now == s.now && t.store == Apply(s, p, e).store && Alone(cfg, a, s, t, p)
            && t.locks == Apply(s, p, e).locks && t.handlers == s.handlers[p := t.handlers[p]]
            && t.handlers[p].proc == s.handlers[p].proc && t.handlers[p].led == Led(s.handlers[p])
  {
    AloneStep(cfg, a, s, p);
    ApplyKeepsHandlers(s, p, StepHandler(cfg, s, s.handlers[p], ch).1);
    hide StepHandler, Apply, Alone, Led;
  }

  /** One step of a flight. */
  lemma FlightMoves(cfg: Config, a: Answers, s: State, p: Pid, id: Id, f: Flight, ch: Choice, g: Flight, e: Effect) returns (t: State)
    requires Flies(s, p, id, f) && !f.at.Finished? && StepFlight(cfg, s, id, f, ch) == (g, e)
    requires ch == if f.at.Exchanging? then a.exchange else Go
    ensures Alone(cfg, a, s, t, p) && Flies(t, p, id, g) && t.now == s.now
    ensures t.store == Apply(s, p, e).store && t.locks == Apply(s, p, e).locks
  {
    HandlerMoves(cfg, a, s, p, id, Refresh(f), ch);
    hide StepFlight, Apply, Alone, Next;
    t := Next(cfg, s, Run(p, ch));
  }

  /** One more step, without an effect on store and locks. */
  lemma Onwards(cfg: Config, a: Answers, s0: State, s: State, p: Pid, id: Id, f: Flight, ch: Choice, g: Flight) returns (t: State)
    requires Alone(cfg, a, s0, s, p)
    requires Flies(s, p, id, f) && !f.at.Finished? && StepFlight(cfg, s, id, f, ch) == (g, NoEffect)
    requires ch == if f.at.Exchanging? then a.exchange else Go
    ensures Alone(cfg, a, s0, t, p) && Flies(t, p, id, g)
    ensures t.now == s.now && t.store == s.store && t.locks == s.locks
  {
    hide StepFlight, Alone, Flies;
    t := FlightMoves(cfg, a, s, p, id, f, ch, g, NoEffect);
    AloneOn(cfg, a, s0, s, t, p);
  }

  lemma AloneNone(cfg: Config, a: Answers, s: State, p: Pid)
    ensures Alone(cfg, a, s, s, p)
  {
    assert Drive(cfg, a, s, p, 0) == s;
  }

  // ---- the single steps of a refresh that goes well ----

  lemma ReadySteps(cfg: Config, s: State, id: Id, f: Flight)
    requires f.at.Ready? && s.now < f.deadline
    ensures StepFlight(cfg, s, id, f, Go) == (f.(at := Exchanging), NoEffect)
  {
  }

  lemma ExchangeSteps(cfg: Config, s: State, id: Id, f: Flight, resp: Response)
    requires f.at.Exchanging? && Acceptable(f.current, resp)
    ensures StepFlight(cfg, s, id, f, Tokens(resp)) ==
            (f.(at := ComputeTtl(ApplyTokens(f.current, resp), resp)), Redeem(id, f.current.refresh, resp))
  {
    hide ApplyTokens, Acceptable;
  }

  lemma TtlSteps(cfg: Config, s: State, id: Id, f: Flight)
    requires f.at.ComputeTtl? && SessionTTLFor(cfg, f.at.updated, s.now) > 0
    ensures StepFlight(cfg, s, id, f, Go) ==
            (f.(at := Store(Job(f.at.updated, f.at.resp, SessionTTLFor(cfg, f.at.updated, s.now), s.now,
                                f.current.version, 0))), NoEffect)
  {
    hide SessionTTLFor;
  }

  /** The compare-and-set succeeds. */
  lemma StoreMoves(cfg: Config, a: Answers, s: State, p: Pid, id: Id, f: Flight) returns (t: State)
    requires Flies(s, p, id, f) && f.at.Store? && CanUpdate(s, id, f.at.job.expected) && f.at.job.ttl > 0
    ensures Alone(cfg, a, s, t, p) && Flies(t, p, id, Return(f, Some(f.at.job.updated))) && t.now == s.now
    ensures Live(t, id) && t.store[id].sess == f.at.job.updated && t.store[id].expiresAt == s.now + f.at.job.ttl
    ensures t.locks == s.locks
  {
    var job := f.at.job;
    var e := Update(id, job.expected, job.updated, job.ttl, job.computedAt, Refreshed(f.current, job.resp));
    assert StepFlight(cfg, s, id, f, Go) == (Return(f, Some(job.updated)), e);
    hide StepFlight, Alone, Return;
    t := FlightMoves(cfg, a, s, p, id, f, Go, Return(f, Some(job.updated)), e);
  }

  lemma LossSteps(cfg: Config, a: Answers, s: State, p: Pid, id: Id, f: Flight) returns (t: State)
    requires Flies(s, p, id, f) && f.at.Store? && !CanUpdate(s, id, f.at.job.expected)
    ensures Alone(cfg, a, s, t, p) && Flies(t, p, id, f.(at := ReadAfterLoss(f.at.job)))
    ensures t.now == s.now && t.store == s.store
  {
    var job := f.at.job;
    var e := Update(id, job.expected, job.updated, job.ttl, job.computedAt, Refreshed(f.current, job.resp));
    assert StepFlight(cfg, s, id, f, Go) == (f.(at := ReadAfterLoss(job)), e);
    hide StepFlight, Alone;
    t := FlightMoves(cfg, a, s, p, id, f, Go, f.(at := ReadAfterLoss(job)), e);
  }

  lemma RereadSteps(cfg: Config, s: State, id: Id, f: Flight)
    requires f.at.ReadAfterLoss? && Live(s, id)
    ensures StepFlight(cfg, s, id, f, Go) == (f.(found := Some(s.store[id].sess), at := Merge(f.at.job)), NoEffect)
  {
  }

  lemma MergeSteps(cfg: Config, s: State, id: Id, f: Flight, latest: Session)
    requires f.at.Merge? && f.found == Some(latest) && NeedsRefresh(cfg, latest, s.now)
    requires f.at.job.attempt + 1 < MAX_ACTIVITY_MERGE_ATTEMPTS && OnlyActivityChanged(f.current, latest)
    ensures StepFlight(cfg, s, id, f, Go) == (f.(at := Store(Rebase(f.at.job, latest))), NoEffect)
  {
    hide Rebase, NeedsRefresh, OnlyActivityChanged;
  }

  lemma ReadSteps(cfg: Config, s: State, id: Id, f: Flight)
    requires Live(s, id) && (f.at.ReadStored? || f.at.ReadLocked?)
    ensures StepFlight(cfg, s, id, f, Go) ==
            (f.(found := Some(s.store[id].sess), current := s.store[id].sess,
                at := if f.at.ReadStored? then Reconsider else ReconsiderLocked), NoEffect)
  {
  }

  lemma ReconsiderSteps(cfg: Config, s: State, id: Id, f: Flight)
    requires NeedsRefresh(cfg, f.current, s.now) && (f.at.Reconsider? || f.at.ReconsiderLocked?)
    ensures StepFlight(cfg, s, id, f, Go) ==
            (if f.at.Reconsider? && cfg.locker then f.(at := TryLock, giveUp := s.now + cfg.lockWait)
             else f.(at := Ready), NoEffect)
  {
    hide NeedsRefresh;
  }

  predicate HoldsLock(s: State, p: Pid, id: Id) {
    id in s.locks && s.locks[id].holder == p
  }

  lemma LockMoves(cfg: Config, a: Answers, s: State, p: Pid, id: Id, f: Flight) returns (t: State)
    requires Flies(s, p, id, f) && f.at.TryLock? && LockFree(s, id)
    ensures Alone(cfg, a, s, t, p) && Flies(t, p, id, f.(at := ReadLocked, locked := true))
    ensures t.now == s.now && t.store == s.store && !LockFree(t, id) && HoldsLock(t, p, id)
  {
    assert StepFlight(cfg, s, id, f, Go) == (f.(at := ReadLocked, locked := true), Acquire(id));
    hide StepFlight, Alone;
    t := FlightMoves(cfg, a, s, p, id, f, Go, f.(at := ReadLocked, locked := true), Acquire(id));
  }

  // ---- a refresh ----

  /** The session is in the store, for as long as the limits allow from now on. */
  predicate Stores(cfg: Config, s: State, t: State, id: Id, sess: Session) {
    Live(t, id) && t.store[id].sess == sess && t.store[id].expiresAt == s.now + SessionTTLFor(cfg, sess, s.now)
  }

  /** From the exchange to the stored tokens. */
  lemma ExchangeStores(cfg: Config, a: Answers, s: State, p: Pid, id: Id, f: Flight, resp: Response) returns (t: State, g: Flight)
    requires a.exchange == Tokens(resp)
    requires Flies(s, p, id, f) && f.at.Ready? && s.now < f.deadline
    requires Live(s, id) && s.store[id].sess == f.current
    requires Acceptable(f.current, resp) && SessionTTLFor(cfg, ApplyTokens(f.current, resp), s.now) > 0
    ensures Alone(cfg, a, s, t, p) && Flies(t, p, id, g) && t.now == s.now && t.locks == s.locks
    ensures g.at == (if f.locked then Release else Finished) && g.outcome == Some(ApplyTokens(f.current, resp))
    ensures Stores(cfg, s, t, id, ApplyTokens(f.current, resp))
  {
    hide StepFlight, Alone, Flies, ApplyTokens, SessionTTLFor, Acceptable;
    AloneNone(cfg, a, s, p);
    ReadySteps(cfg, s, id, f);
    var f1 := f.(at := Exchanging);
    var s1 := Onwards(cfg, a, s, s, p, id, f, Go, f1);
    ExchangeSteps(cfg, s1, id, f1, resp);
    var f2 := f1.(at := ComputeTtl(ApplyTokens(f.current, resp), resp));
    var s2 := FlightMoves(cfg, a, s1, p, id, f1, Tokens(resp), f2, Redeem(id, f.current.refresh, resp));
    AloneOn(cfg, a, s, s1, s2, p);
    t, g := ResponseStores(cfg, a, s, s2, p, id, f2);
  }

  lemma ResponseStores(cfg: Config, a: Answers, s0: State, s: State, p: Pid, id: Id, f: Flight) returns (t: State, g: Flight)
    requires Alone(cfg, a, s0, s, p) && Flies(s, p, id, f) && f.at.ComputeTtl?
    requires Live(s, id) && s.store[id].sess == f.current && SessionTTLFor(cfg, f.at.updated, s.now) > 0
    ensures Alone(cfg, a, s0, t, p) && Flies(t, p, id, g) && t.now == s.now && t.locks == s.locks
    ensures g.at == (if f.locked then Release else Finished) && g.outcome == Some(f.at.updated)
    ensures Stores(cfg, s, t, id, f.at.updated)
  {
    hide StepFlight, Alone, Flies, SessionTTLFor;
    var ttl := SessionTTLFor(cfg, f.at.updated, s.now);
    TtlSteps(cfg, s, id, f);
    var f1 := f.(at := Store(Job(f.at.updated, f.at.resp, ttl, s.now, f.current.version, 0)));
    var s1 := Onwards(cfg, a, s0, s, p, id, f, Go, f1);
    t := StoreMoves(cfg, a, s1, p, id, f1);
    g := Return(f1, Some(f.at.updated));
    AloneOn(cfg, a, s0, s1, t, p);
  }

  /** From the first read to the exchange, through the lock where there is one. */
  lemma RefreshGetsReady(cfg: Config, a: Answers, s: State, p: Pid, id: Id, f: Flight) returns (t: State, g: Flight)
    requires Flies(s, p, id, f) && f.at.ReadStored? && !f.locked
    requires Live(s, id) && NeedsRefresh(cfg, s.store[id].sess, s.now) && (cfg.locker ==> LockFree(s, id))
    ensures Alone(cfg, a, s, t, p) && Flies(t, p, id, g) && t.now == s.now && t.store == s.store
    ensures g.at.Ready? && g.deadline == f.deadline && g.current == s.store[id].sess && g.locked == cfg.locker
    ensures if cfg.locker then !LockFree(t, id) && HoldsLock(t, p, id) else t.locks == s.locks
  {
    hide StepFlight, Alone, Flies, NeedsRefresh;
    var sess := s.store[id].sess;
    AloneNone(cfg, a, s, p);
    ReadSteps(cfg, s, id, f);
    var f1 := f.(found := Some(sess), at := Reconsider, current := sess);
    var s1 := Onwards(cfg, a, s, s, p, id, f, Go, f1);
    ReconsiderSteps(cfg, s1, id, f1);
    g := if cfg.locker then f1.(at := TryLock, giveUp := s.now + cfg.lockWait) else f1.(at := Ready);
    t := Onwards(cfg, a, s, s1, p, id, f1, Go, g);
    if cfg.locker { t, g := LockGetsReady(cfg, a, s, t, p, id, g); }
  }

  lemma LockGetsReady(cfg: Config, a: Answers, s0: State, s: State, p: Pid, id: Id, f: Flight) returns (t: State, g: Flight)
    requires Alone(cfg, a, s0, s, p) && Flies(s, p, id, f) && f.at.TryLock? && LockFree(s, id)
    requires Live(s, id) && NeedsRefresh(cfg, s.store[id].sess, s.now)
    ensures Alone(cfg, a, s0, t, p) && Flies(t, p, id, g) && t.now == s.now && t.store == s.store
    ensures g.at.Ready? && g.deadline == f.deadline && g.current == s.store[id].sess && g.locked
    ensures !LockFree(t, id) && HoldsLock(t, p, id)
  {
    hide StepFlight, Alone, Flies, NeedsRefresh;
    var sess := s.store[id].sess;
    var s1 := LockMoves(cfg, a, s, p, id, f);
    var f1 := f.(at := ReadLocked, locked := true);
    AloneOn(cfg, a, s0, s, s1, p);
    ReadSteps(cfg, s1, id, f1);
    var f2 := f1.(found := Some(sess), at := ReconsiderLocked, current := sess);
    var s2 := Onwards(cfg, a, s0, s1, p, id, f1, Go, f2);
    ReconsiderSteps(cfg, s2, id, f2);
    g := f2.(at := Ready);
    t := Onwards(cfg, a, s0, s2, p, id, f2, Go, g);
  }

  lemma ReleaseSteps(cfg: Config, s: State, id: Id, f: Flight)
    requires f.at.Release?
    ensures StepFlight(cfg, s, id, f, Go) == (f.(at := Finished, locked := false), Free(id))
  {
  }

  /** Where a request goes from a refresh: on with a session, or away without one. */
  function OnwardTo(outcome: Option<Session>): Pc {
    match outcome case Some(v) => Record(v) case None => Done(None)
  }

  lemma FinishedMoves(cfg: Config, a: Answers, s: State, p: Pid, id: Id, f: Flight) returns (t: State)
    requires Flies(s, p, id, f) && f.at.Finished?
    ensures Alone(cfg, a, s, t, p) && t.store == s.store && t.now == s.now
    ensures At(t, p, id, OnwardTo(f.outcome)) && t.handlers[p].led == Some(f.outcome)
    ensures t.locks == s.locks
  {
    HandlerMoves(cfg, a, s, p, id, Refresh(f), Go);
    hide Next, Alone;
    t := Next(cfg, s, Run(p, Go));
  }

  /** From the outcome to what the request goes on with. */
  lemma RefreshLeaves(cfg: Config, a: Answers, s: State, p: Pid, id: Id, f: Flight) returns (t: State)
    requires Flies(s, p, id, f) && (f.at.Release? || f.at.Finished?)
    ensures Alone(cfg, a, s, t, p) && t.store == s.store && t.now == s.now
    ensures At(t, p, id, OnwardTo(f.outcome)) && t.handlers[p].led == Some(f.outcome)
    ensures if f.at.Release? then HoldsLock(s, p, id) ==> LockFree(t, id) else t.locks == s.locks
  {
    hide StepFlight, Alone, Flies, At;
    if f.at.Release? {
      ReleaseSteps(cfg, s, id, f);
      var f1 := f.(at := Finished, locked := false);
      var s1 := FlightMoves(cfg, a, s, p, id, f, Go, f1, Free(id));
      t := FinishedMoves(cfg, a, s1, p, id, f1);
      AloneOn(cfg, a, s, s1, t, p);
    } else {
      t := FinishedMoves(cfg, a, s, p, id, f);
    }
  }

  /** Tokens move no limit. */
  lemma AppliedWithinLimits(cfg: Config, sess: Session, resp: Response, now: Time)
    requires cfg.sessionTTL > 0 && WithinLimits(cfg, sess, now)
    ensures WithinLimits(cfg, ApplyTokens(sess, resp), now) && SessionTTLFor(cfg, ApplyTokens(sess, resp), now) > 0
  {
    LimitsAreExact(cfg, ApplyTokens(sess, resp), now);
  }

  /** From the exchange to the end of the refresh. */
  lemma ExchangeEnds(cfg: Config, a: Answers, s: State, p: Pid, id: Id, f: Flight, resp: Response) returns (t: State)
    requires a.exchange == Tokens(resp)
    requires Flies(s, p, id, f) && f.at.Ready? && s.now < f.deadline
    requires Live(s, id) && s.store[id].sess == f.current
    requires Acceptable(f.current, resp) && SessionTTLFor(cfg, ApplyTokens(f.current, resp), s.now) > 0
    ensures var updated := ApplyTokens(f.current, resp);
            && Alone(cfg, a, s, t, p) && t.now == s.now && Stores(cfg, s, t, id, updated)
            && At(t, p, id, Record(updated)) && t.handlers[p].led == Some(Some(updated))
    ensures if f.locked then HoldsLock(s, p, id) ==> LockFree(t, id) else t.locks == s.locks
  {
    hide Alone, Flies, ApplyTokens, SessionTTLFor, Acceptable, LockFree;
    var u, g := ExchangeStores(cfg, a, s, p, id, f, resp);
    t := RefreshLeaves(cfg, a, u, p, id, g);
    AloneOn(cfg, a, s, u, t, p);
  }

  /** A refresh that is left alone stores the refreshed tokens and hands them to its request. */
  lemma RefreshSucceeds(cfg: Config, a: Answers, s: State, p: Pid, id: Id, f: Flight, resp: Response) returns (t: State)
    requires a.exchange == Tokens(resp)
    requires Flies(s, p, id, f) && f.at.ReadStored? && !f.locked && s.now < f.deadline
    requires Live(s, id) && NeedsRefresh(cfg, s.store[id].sess, s.now) && (cfg.locker ==> LockFree(s, id))
    requires Acceptable(s.store[id].sess, resp) && cfg.sessionTTL > 0 && WithinLimits(cfg, s.store[id].sess, s.now)
    ensures var updated := ApplyTokens(s.store[id].sess, resp);
            && Alone(cfg, a, s, t, p)
            && Stores(cfg, s, t, id, updated) && At(t, p, id, Record(updated)) && t.now == s.now
            && (LockFree(s, id) ==> LockFree(t, id)) && t.handlers[p].led == Some(Some(updated))
  {
    AppliedWithinLimits(cfg, s.store[id].sess, resp, s.now);
    hide Alone, Flies, At, ApplyTokens, SessionTTLFor, NeedsRefresh, Acceptable, LockFree, WithinLimits, HoldsLock;
    var u, g := RefreshGetsReady(cfg, a, s, p, id, f);
    t := ExchangeEnds(cfg, a, u, p, id, g, resp);
    if !cfg.locker { SameLocks(s, t, id); }
    AloneOn(cfg, a, s, u, t, p);
  }

  /** A refresh that lost its race to recorded activity, with an attempt left, stores its tokens
      onto the session that is there now: the refresh of that session. */
  lemma MergeSucceeds(cfg: Config, a: Answers, s: State, p: Pid, id: Id, f: Flight, latest: Session) returns (t: State)
    requires Flies(s, p, id, f) && f.at.Store? && f.at.job.attempt + 1 < MAX_ACTIVITY_MERGE_ATTEMPTS
    requires f.at.job.updated == ApplyTokens(f.current, f.at.job.resp) && f.at.job.ttl > 0
    requires Live(s, id) && s.store[id].sess == latest && latest.version != f.at.job.expected
    requires NeedsRefresh(cfg, latest, s.now)
    requires latest == f.current.(lastActivity := latest.lastActivity, version := latest.version)
    requires Later(f.current, latest)
    ensures Alone(cfg, a, s, t, p) && Live(t, id) && t.store[id].sess == ApplyTokens(latest, f.at.job.resp)
  {
    RebaseIsRefresh(f.current, f.at.job, latest);
    hide Alone, Flies, ApplyTokens, NeedsRefresh, Rebase, Later;
    t := MergeStores(cfg, a, s, p, id, f, latest);
  }

  /** After a lost race, with an attempt left, the next one is made and stores what the merge says. */
  lemma MergeStores(cfg: Config, a: Answers, s: State, p: Pid, id: Id, f: Flight, latest: Session) returns (t: State)
    requires Flies(s, p, id, f) && f.at.Store? && f.at.job.attempt + 1 < MAX_ACTIVITY_MERGE_ATTEMPTS && f.at.job.ttl > 0
    requires Live(s, id) && s.store[id].sess == latest && latest.version != f.at.job.expected
    requires NeedsRefresh(cfg, latest, s.now) && OnlyActivityChanged(f.current, latest)
    ensures Alone(cfg, a, s, t, p) && Live(t, id) && t.store[id].sess == Rebase(f.at.job, latest).updated
  {
    var job := f.at.job;
    assert Rebase(job, latest).expected == latest.version && Rebase(job, latest).ttl == job.ttl;
    hide StepFlight, Alone, Flies, NeedsRefresh, Rebase, OnlyActivityChanged;
    var s1 := LossSteps(cfg, a, s, p, id, f);
    var f1 := f.(at := ReadAfterLoss(job));
    RereadSteps(cfg, s1, id, f1);
    var f2 := f1.(found := Some(latest), at := Merge(job));
    var s2 := Onwards(cfg, a, s, s1, p, id, f1, Go, f2);
    MergeSteps(cfg, s2, id, f2, latest);
    var f3 := f2.(at := Store(Rebase(job, latest)));
    var s3 := Onwards(cfg, a, s, s2, p, id, f2, Go, f3);
    t := StoreMoves(cfg, a, s3, p, id, f3);
    AloneOn(cfg, a, s, s3, t, p);
  }

  lemma RebaseIsRefresh(current: Session, job: Job, latest: Session)
    requires job.updated == ApplyTokens(current, job.resp) && Later(current, latest)
    requires latest == current.(lastActivity := latest.lastActivity, version := latest.version)
    ensures Rebase(job, latest).updated == ApplyTokens(latest, job.resp) && OnlyActivityChanged(current, latest)
  {
    SessionMerge.MergedParts(current, latest, job.resp);
    SessionMerge.MergeIsRefreshIff(current, latest, job.resp);
    hide ApplyTokens, Later;
  }

  // ---- a request ----

  /** The session with this request's activity, where it is to be recorded. */
  function WithActivity(cfg: Config, sess: Session, background: bool, now: Time): Session {
    if !background && cfg.idleTimeout > 0 && now - LastActivity(sess) >= ACTIVITY_WRITE_INTERVAL
    then sess.(lastActivity := now, version := sess.version + 1) else sess
  }

  lemma ActivityWithinLimits(cfg: Config, sess: Session, now: Time)
    requires cfg.sessionTTL > 0 && WithinLimits(cfg, sess, now) && now > ZERO_TIME
    ensures SessionTTLFor(cfg, sess.(lastActivity := now, version := sess.version + 1), now) > 0
  {
    LimitsAreExact(cfg, sess.(lastActivity := now, version := sess.version + 1), now);
  }

  lemma RecordFinishes(cfg: Config, a: Answers, s: State, p: Pid, id: Id, sess: Session) returns (t: State)
    requires At(s, p, id, Record(sess)) && Live(s, id) && s.store[id].sess == sess
    requires cfg.sessionTTL > 0 && WithinLimits(cfg, sess, s.now) && s.now > ZERO_TIME
    ensures var x := WithActivity(cfg, sess, s.handlers[p].background, s.now);
            && Alone(cfg, a, s, t, p) && At(t, p, id, Done(Some(x))) && t.now == s.now && t.locks == s.locks
            && (if x == sess then t.store == s.store else Stores(cfg, s, t, id, x))
  {
    ActivityWithinLimits(cfg, sess, s.now);
    var x := WithActivity(cfg, sess, s.handlers[p].background, s.now);
    assert StepHandler(cfg, s, s.handlers[p], Go).0 ==
           (if x == sess then Done(Some(sess)) else WriteActivity(sess, x, SessionTTLFor(cfg, x, s.now), s.now));
    hide Next, Alone, SessionTTLFor, WithinLimits, WithActivity, Stores;
    HandlerMoves(cfg, a, s, p, id, Record(sess), Go);
    t := Next(cfg, s, Run(p, Go));
    if x != sess {
      var s1 := t;
      t := ActivityStores(cfg, a, s1, p, id, sess, x);
      AloneOn(cfg, a, s, s1, t, p);
    }
  }

  lemma ActivityStores(cfg: Config, a: Answers, s: State, p: Pid, id: Id, sess: Session, x: Session) returns (t: State)
    requires At(s, p, id, WriteActivity(sess, x, SessionTTLFor(cfg, x, s.now), s.now))
    requires Live(s, id) && s.store[id].sess == sess && SessionTTLFor(cfg, x, s.now) > 0
    ensures Alone(cfg, a, s, t, p) && At(t, p, id, Done(Some(x))) && t.now == s.now && t.locks == s.locks
    ensures Stores(cfg, s, t, id, x)
  {
    hide Next, Alone, SessionTTLFor;
    HandlerMoves(cfg, a, s, p, id, s.handlers[p].pc, Go);
    t := Next(cfg, s, Run(p, Go));
  }

  /** A step of p changes no other handler, and little of its own. */
  lemma StepKeepsHandlers(cfg: Config, s: State, p: Pid, ch: Choice)
    requires p in s.handlers
    ensures var t := Next(cfg, s, Run(p, ch));
            && t.handlers.Keys == s.handlers.Keys && (forall q <- s.handlers | q != p :: t.handlers[q] == s.handlers[q])
            && t.handlers[p].proc == s.handlers[p].proc && t.handlers[p].background == s.handlers[p].background
  {
    hide StepHandler, Apply;
    ApplyKeepsHandlers(s, p, StepHandler(cfg, s, s.handlers[p], ch).1);
  }

  lemma {:induction false} DriveKeepsHandlers(cfg: Config, a: Answers, s: State, p: Pid, n: nat)
    requires p in s.handlers
    ensures var t := Drive(cfg, a, s, p, n);
            && t.handlers.Keys == s.handlers.Keys && (forall q <- s.handlers | q != p :: t.handlers[q] == s.handlers[q])
            && t.handlers[p].proc == s.handlers[p].proc && t.handlers[p].background == s.handlers[p].background
    decreases n
  {
    hide Next, AnswerTo;
    if n > 0 {
      StepKeepsHandlers(cfg, s, p, AnswerTo(s, p, a));
      DriveKeepsHandlers(cfg, a, Next(cfg, s, Run(p, AnswerTo(s, p, a))), p, n - 1);
    }
  }

  lemma AloneKeepsBackground(cfg: Config, a: Answers, s: State, t: State, p: Pid)
    requires Alone(cfg, a, s, t, p) && p in s.handlers
    ensures p in t.handlers && t.handlers[p].background == s.handlers[p].background
  {
    hide Drive;
    var n: nat :| Drive(cfg, a, s, p, n) == t;
    DriveKeepsHandlers(cfg, a, s, p, n);
  }

  /** Reading and checking the session, up to the decision to refresh. */
  lemma RequestDecides(cfg: Config, a: Answers, s: State, p: Pid, id: Id) returns (t: State)
    requires At(s, p, id, Load) && Live(s, id) && WithinLimits(cfg, s.store[id].sess, s.now)
    ensures Alone(cfg, a, s, t, p) && At(t, p, id, Decide(s.store[id].sess))
    ensures t.now == s.now && t.store == s.store && t.locks == s.locks
    ensures t.handlers == s.handlers[p := t.handlers[p]] && t.handlers[p].proc == s.handlers[p].proc
  {
    LimitsAreExact(cfg, s.store[id].sess, s.now);
    hide Next, Alone, LifetimeExceeded, WithinLimits, NeedsRefresh;
    var sess := s.store[id].sess;
    HandlerMoves(cfg, a, s, p, id, Load, Go);
    var s1 := Next(cfg, s, Run(p, Go));
    HandlerMoves(cfg, a, s1, p, id, Check(sess), Go);
    t := Next(cfg, s1, Run(p, Go));
    AloneOn(cfg, a, s, s1, t, p);
  }

  predicate NobodyLeads(s: State, p: Pid, id: Id)
    requires p in s.handlers
  {
    forall q <- s.handlers :: !Leads(s, s.handlers[p].proc, id, q)
  }

  lemma DecisionGoesOn(cfg: Config, a: Answers, s: State, p: Pid, id: Id, sess: Session, resp: Response) returns (t: State)
    requires a.exchange == Tokens(resp)
    requires At(s, p, id, Decide(sess)) && Live(s, id) && s.store[id].sess == sess
    requires NeedsRefresh(cfg, sess, s.now) ==>
               && NobodyLeads(s, p, id) && (cfg.locker ==> LockFree(s, id)) && Acceptable(sess, resp)
               && cfg.sessionTTL > 0 && WithinLimits(cfg, sess, s.now)
    ensures var due := NeedsRefresh(cfg, sess, s.now);
            && Alone(cfg, a, s, t, p) && t.now == s.now && At(t, p, id, Record(if due then ApplyTokens(sess, resp) else sess))
            && (if due then Stores(cfg, s, t, id, ApplyTokens(sess, resp)) && (LockFree(s, id) ==> LockFree(t, id))
                else t.store == s.store && t.locks == s.locks)
  {
    hide Next, Alone, NeedsRefresh, Acceptable, ApplyTokens, SessionTTLFor, LockFree, WithinLimits;
    HandlerMoves(cfg, a, s, p, id, Decide(sess), Go);
    t := Next(cfg, s, Run(p, Go));
    if NeedsRefresh(cfg, sess, s.now) {
      var s1, f := t, Flight(ReadStored, s.now + REFRESH_TIMEOUT, s.now, false, sess, None, None);
      assert LockFree(s, id) ==> LockFree(s1, id) by { SameLocks(s, s1, id); }
      t := RefreshSucceeds(cfg, a, s1, p, id, f, resp);
      AloneOn(cfg, a, s, s1, t, p);
    }
  }

  lemma SameLocks(s: State, t: State, id: Id)
    requires t.locks == s.locks && t.now == s.now
    ensures LockFree(t, id) == LockFree(s, id)
  {
  }

  /** From the first read to the session the request goes on with. */
  lemma RequestGetsSession(cfg: Config, a: Answers, s: State, p: Pid, id: Id, resp: Response) returns (t: State)
    requires a.exchange == Tokens(resp) && cfg.sessionTTL > 0
    requires At(s, p, id, Load) && Live(s, id) && WithinLimits(cfg, s.store[id].sess, s.now)
    requires NeedsRefresh(cfg, s.store[id].sess, s.now) ==>
               NobodyLeads(s, p, id) && (cfg.locker ==> LockFree(s, id)) && Acceptable(s.store[id].sess, resp)
    ensures var sess, due := s.store[id].sess, NeedsRefresh(cfg, s.store[id].sess, s.now);
            && Alone(cfg, a, s, t, p) && t.now == s.now && At(t, p, id, Record(if due then ApplyTokens(sess, resp) else sess))
            && (if due then Stores(cfg, s, t, id, ApplyTokens(sess, resp)) else t.store == s.store)
            && (LockFree(s, id) ==> LockFree(t, id))
  {
    hide Next, Alone, NeedsRefresh, Acceptable, ApplyTokens, SessionTTLFor, LockFree, WithinLimits;
    var u := RequestDecides(cfg, a, s, p, id);
    SameLocks(s, u, id);
    assert NobodyLeads(s, p, id) ==> NobodyLeads(u, p, id);
    hide NobodyLeads;
    t := DecisionGoesOn(cfg, a, u, p, id, s.store[id].sess, resp);
    if t.locks == u.locks { SameLocks(u, t, id); }
    AloneOn(cfg, a, s, u, t, p);
  }

  /** A request for a stored session within its limits that is left alone is served: with the
      session as it is, or refreshed where that is due, and with its activity recorded. What it
      wrote is stored for as long as the limits allow, and a refresh lock is given back. */
  lemma RequestIsServed(cfg: Config, a: Answers, s: State, p: Pid, id: Id, resp: Response) returns (t: State)
    requires a.exchange == Tokens(resp) && cfg.sessionTTL > 0 && s.now > ZERO_TIME
    requires At(s, p, id, Load) && Live(s, id) && WithinLimits(cfg, s.store[id].sess, s.now)
    requires NeedsRefresh(cfg, s.store[id].sess, s.now) ==>
               && NobodyLeads(s, p, id) && (cfg.locker ==> LockFree(s, id))
               && (resp.identity.Some? ==> resp.identity.value.subject == s.store[id].sess.userId)
    ensures var sess := s.store[id].sess;
            var due := cfg.refreshEnabled && sess.refresh != "" && sess.expiry != ZERO_TIME && sess.expiry - cfg.refreshLeeway <= s.now;
            var x := WithActivity(cfg, if due then ApplyTokens(sess, resp) else sess, s.handlers[p].background, s.now);
            && Ends(cfg, a, s, t, p) && At(t, p, id, Done(Some(x))) && t.now == s.now
            && (if x == sess then t.store == s.store else Stores(cfg, s, t, id, x))
            && (LockFree(s, id) ==> LockFree(t, id))
  {
    var sess := s.store[id].sess;
    AppliedWithinLimits(cfg, sess, resp, s.now);
    AppliedIsNew(cfg, sess, resp, s.handlers[p].background, s.now);
    assert NeedsRefresh(cfg, sess, s.now) ==> Acceptable(sess, resp);
    var base := if NeedsRefresh(cfg, sess, s.now) then ApplyTokens(sess, resp) else sess;
    assert NeedsRefresh(cfg, sess, s.now) ==
           (cfg.refreshEnabled && sess.refresh != "" && sess.expiry != ZERO_TIME && sess.expiry - cfg.refreshLeeway <= s.now);
    hide Next, Alone, Ends, NeedsRefresh, Acceptable, ApplyTokens, SessionTTLFor, WithActivity, LockFree, WithinLimits, NobodyLeads;
    var u := RequestGetsSession(cfg, a, s, p, id, resp);
    AloneKeepsBackground(cfg, a, s, u, p);
    t := RecordFinishes(cfg, a, u, p, id, base);
    SameLocks(u, t, id);
    AloneOn(cfg, a, s, u, t, p);
    AloneEnds(cfg, a, s, t, p);
  }

  lemma AppliedIsNew(cfg: Config, sess: Session, resp: Response, background: bool, now: Time)
    ensures var x := WithActivity(cfg, ApplyTokens(sess, resp), background, now); x.version > sess.version
  {
  }

  /** A request for a session past a limit gets nothing and deletes it. */
  lemma LimitEndsSession(cfg: Config, a: Answers, s: State, p: Pid, id: Id) returns (t: State)
    requires At(s, p, id, Load) && Live(s, id) && !WithinLimits(cfg, s.store[id].sess, s.now)
    ensures Ends(cfg, a, s, t, p) && At(t, p, id, Done(None)) && t.store == s.store - {id}
  {
    LimitsAreExact(cfg, s.store[id].sess, s.now);
    hide Next, Alone, Ends, LifetimeExceeded;
    var sess := s.store[id].sess;
    HandlerMoves(cfg, a, s, p, id, Load, Go);
    var s1 := Next(cfg, s, Run(p, Go));
    HandlerMoves(cfg, a, s1, p, id, Check(sess), Go);
    var s2 := Next(cfg, s1, Run(p, Go));
    HandlerMoves(cfg, a, s2, p, id, Expire, Go);
    t := Next(cfg, s2, Run(p, Go));
    AloneOn(cfg, a, s, s1, s2, p);
    AloneOn(cfg, a, s, s2, t, p);
    AloneEnds(cfg, a, s, t, p);
  }

  // ---- a refresh that fails ----

  /** A request whose session is due gets to the token endpoint. */
  lemma GetsToExchange(cfg: Config, a: Answers, s: State, p: Pid, id: Id) returns (t: State, g: Flight)
    requires At(s, p, id, Load) && Live(s, id) && NobodyLeads(s, p, id) && (cfg.locker ==> LockFree(s, id))
    requires NeedsRefresh(cfg, s.store[id].sess, s.now) && WithinLimits(cfg, s.store[id].sess, s.now)
    ensures Alone(cfg, a, s, t, p) && Flies(t, p, id, g) && t.now == s.now && t.store == s.store
    ensures g.at.Exchanging? && g.current == s.store[id].sess && g.locked == cfg.locker
    ensures g.deadline == s.now + REFRESH_TIMEOUT && (cfg.locker ==> !LockFree(t, id) && HoldsLock(t, p, id))
  {
    hide Next, Alone, NeedsRefresh, WithinLimits, StepFlight;
    var sess := s.store[id].sess;
    var s1 := RequestDecides(cfg, a, s, p, id);
    assert NobodyLeads(s1, p, id);
    HandlerMoves(cfg, a, s1, p, id, Decide(sess), Go);
    var s2, f := Next(cfg, s1, Run(p, Go)), Flight(ReadStored, s.now + REFRESH_TIMEOUT, s.now, false, sess, None, None);
    var s3, f3 := RefreshGetsReady(cfg, a, s2, p, id, f);
    AloneOn(cfg, a, s, s1, s2, p);
    AloneOn(cfg, a, s, s2, s3, p);
    ReadySteps(cfg, s3, id, f3);
    g := f3.(at := Exchanging);
    t := Onwards(cfg, a, s, s3, p, id, f3, Go, g);
  }

  lemma FailureSteps(cfg: Config, s: State, id: Id, f: Flight, ch: Choice)
    requires f.at.Exchanging? && (OutageGrace.Refuses(f, ch) || ch.Unavailable?)
    ensures StepFlight(cfg, s, id, f, ch) ==
            (f.(at := FailRead(OutageGrace.Refuses(f, ch))),
             if ch.Tokens? then Redeem(id, f.current.refresh, ch.resp) else NoEffect)
  {
    hide Acceptable, ApplyTokens;
  }

  lemma FailReadSteps(cfg: Config, s: State, id: Id, f: Flight)
    requires f.at.FailRead? && Live(s, id)
    ensures StepFlight(cfg, s, id, f, Go) ==
            (f.(found := Some(s.store[id].sess), at := FailDecide(f.at.permanent)), NoEffect)
  {
  }

  lemma FailDecideSteps(cfg: Config, s: State, id: Id, f: Flight)
    requires f.at.FailDecide? && f.found.Some? && NeedsRefresh(cfg, f.found.value, s.now)
    ensures StepFlight(cfg, s, id, f, Go) ==
            (if !f.at.permanent && s.now < f.current.expiry + cfg.outageGrace then Return(f, Some(f.current))
             else f.(at := FailDelete), NoEffect)
  {
    hide NeedsRefresh;
  }

  /** A refusal ends the session at once; an outage ends it when the grace period is over, and
      until then the request goes on with the session as it is. */
  lemma FailureOutcome(cfg: Config, a: Answers, s: State, p: Pid, id: Id, f: Flight, ch: Choice) returns (t: State, g: Flight)
    requires a.exchange == ch
    requires Flies(s, p, id, f) && f.at.Exchanging? && (OutageGrace.Refuses(f, ch) || ch.Unavailable?)
    requires Live(s, id) && s.store[id].sess == f.current && NeedsRefresh(cfg, f.current, s.now)
    ensures Alone(cfg, a, s, t, p) && Flies(t, p, id, g) && g.at == (if f.locked then Release else Finished)
    ensures t.now == s.now && t.locks == s.locks
    ensures if ch.Unavailable? && s.now < f.current.expiry + cfg.outageGrace
            then g.outcome == Some(f.current) && t.store == s.store
            else g.outcome == None && t.store == s.store - {id}
  {
    hide StepFlight, Alone, Flies, NeedsRefresh, OutageGrace.Refuses;
    FailureSteps(cfg, s, id, f, ch);
    var permanent := OutageGrace.Refuses(f, ch);
    var f1 := f.(at := FailRead(permanent));
    var s1 := FlightMoves(cfg, a, s, p, id, f, ch, f1, if ch.Tokens? then Redeem(id, f.current.refresh, ch.resp) else NoEffect);
    FailReadSteps(cfg, s1, id, f1);
    var f2 := f1.(found := Some(f.current), at := FailDecide(permanent));
    var s2 := Onwards(cfg, a, s, s1, p, id, f1, Go, f2);
    FailDecideSteps(cfg, s2, id, f2);
    OutageIsNoRefusal(f, ch);
    if !permanent && s.now < f.current.expiry + cfg.outageGrace {
      g := Return(f2, Some(f.current));
      t := Onwards(cfg, a, s, s2, p, id, f2, Go, g);
    } else {
      var f3 := f2.(at := FailDelete);
      var s3 := Onwards(cfg, a, s, s2, p, id, f2, Go, f3);
      t := FailDeleteMoves(cfg, a, s3, p, id, f3);
      g := Return(f3, None);
      AloneOn(cfg, a, s, s3, t, p);
    }
  }

  lemma OutageIsNoRefusal(f: Flight, ch: Choice)
    ensures ch.Unavailable? ==> !OutageGrace.Refuses(f, ch)
  {
  }

  lemma FailDeleteMoves(cfg: Config, a: Answers, s: State, p: Pid, id: Id, f: Flight) returns (t: State)
    requires Flies(s, p, id, f) && f.at.FailDelete?
    ensures Alone(cfg, a, s, t, p) && Flies(t, p, id, Return(f, None)) && t.store == s.store - {id}
    ensures t.now == s.now && t.locks == s.locks
  {
    assert StepFlight(cfg, s, id, f, Go) == (Return(f, None), Remove(id));
    hide StepFlight, Alone, Return;
    t := FlightMoves(cfg, a, s, p, id, f, Go, Return(f, None), Remove(id));
  }

  // ---- a deletion ----

  /** Visits every listed session, to the end. */
  lemma {:induction false} VisitsFinish(cfg: Config, a: Answers, s: State, p: Pid, own: Id, w: Progress) returns (t: State, done: Progress)
    requires At(s, p, own, NextVisit(w))
    ensures Alone(cfg, a, s, t, p) && At(t, p, own, Dropped(done)) && done.target == w.target
    decreases |w.rest|
  {
    hide Next, Alone, Matches;
    if w.rest == [] {
      AloneNone(cfg, a, s, p);
      t, done := s, w;
    } else {
      var id := w.rest[0];
      HandlerMoves(cfg, a, s, p, own, Visit(w), Go);
      var s1 := Next(cfg, s, Run(p, Go));
      if !Live(s, id) {
        t, done := VisitsFinish(cfg, a, s1, p, own, w.(rest := w.rest[1..]));
      } else if !Matches(w.target, s.store[id].sess) {
        t, done := VisitsFinish(cfg, a, s1, p, own, w.(rest := w.rest[1..], spared := w.spared[id := s.store[id].sess]));
      } else {
        HandlerMoves(cfg, a, s1, p, own, Drop(w), Go);
        var s2 := Next(cfg, s1, Run(p, Go));
        AloneOn(cfg, a, s, s1, s2, p);
        t, done := VisitsFinish(cfg, a, s2, p, own, w.(rest := w.rest[1..], deleted := w.deleted + {id}));
        s1 := s2;
      }
      AloneOn(cfg, a, s, s1, t, p);
    }
  }

  /** A deletion that is left alone, with an index that lists what it has to, runs to its end. */
  lemma DeletionFinishes(cfg: Config, a: Answers, s: State, p: Pid, own: Id, target: Target) returns (t: State, done: Progress)
    requires At(s, p, own, Lookup(target)) && forall id <- LiveMatches(s, target) :: id in a.ids
    requires (target.BySubject? ==> target.subject != "") && (target.BySid? ==> target.sid != "")
    ensures Ends(cfg, a, s, t, p) && At(t, p, own, Dropped(done)) && done.target == target
  {
    hide Next, Alone, Ends;
    HandlerMoves(cfg, a, s, p, own, Lookup(target), Ids(a.ids));
    var s1 := Next(cfg, s, Run(p, Ids(a.ids)));
    t, done := VisitsFinish(cfg, a, s1, p, own, Progress(target, FoundBy(s, target), a.ids, map[], {}));
    AloneOn(cfg, a, s, s1, t, p);
    AloneEnds(cfg, a, s, t, p);
  }
}
