/** What a refresh that is left alone hands on to its request, by where it stands and by what it
    reads, is answered or cannot do there. */
module RefreshOutcomes {
  import opened Basics
  import opened Sessions
  import opened SessionProtocol
  import opened SessionInvariant
  import opened SessionProgress
  import OutageGrace
  import opened SessionRuns

  /** The points at which a refresh reads its session: first, while it waits for the lock, once it
      holds it, after a lost race, and after a failure. */
  predicate Reads(at: Point) {
    at.ReadStored? || at.ReadWaiting? || at.ReadLocked? || at.ReadAfterLoss? || at.FailRead?
  }

  /** p's refresh, left alone, is over at t, and its request goes on with a session or without. */
  ghost predicate Leaves(cfg: Config, a: Answers, s: State, t: State, p: Pid, id: Id, served: Option<Session>) {
    Alone(cfg, a, s, t, p) && t.now == s.now && At(t, p, id, OnwardTo(served))
  }

  lemma LeavesFrom(cfg: Config, a: Answers, s: State, u: State, p: Pid, id: Id, f: Flight) returns (t: State)
    requires Alone(cfg, a, s, u, p) && u.now == s.now && Flies(u, p, id, f) && (f.at.Release? || f.at.Finished?)
    ensures Leaves(cfg, a, s, t, p, id, f.outcome) && t.store == u.store
    ensures f.at.Release? && HoldsLock(u, p, id) ==> LockFree(t, id)
  {
    hide Alone, Flies, LockFree;
    t := RefreshLeaves(cfg, a, u, p, id, f);
    AloneOn(cfg, a, s, u, t, p);
  }

  /** One step to the end of the refresh, and out of it. */
  lemma LastStep(cfg: Config, a: Answers, s: State, u: State, p: Pid, id: Id, f: Flight, outcome: Option<Session>) returns (t: State)
    requires Alone(cfg, a, s, u, p) && u.now == s.now && Flies(u, p, id, f) && !f.at.Finished? && !f.at.Exchanging?
    requires StepFlight(cfg, u, id, f, Go) == (Return(f, outcome), NoEffect)
    ensures Leaves(cfg, a, s, t, p, id, outcome) && t.store == u.store
    ensures f.locked && HoldsLock(u, p, id) ==> LockFree(t, id)
  {
    hide Alone, Flies, StepFlight, LockFree, Leaves;
    var v := Onwards(cfg, a, s, u, p, id, f, Go, Return(f, outcome));
    t := LeavesFrom(cfg, a, s, v, p, id, Return(f, outcome));
  }

  // ---- what it reads ----

  /** A read has brought x, and what to do with it is decided next. */
  predicate HasRead(f: Flight, g: Flight, x: Session) {
    && g.found == Some(x) && g.locked == f.locked
    && match f.at
       case ReadStored => g.at.Reconsider? && g.current == x
       case ReadWaiting => g.at.ReconsiderWaiting?
       case ReadLocked => g.at.ReconsiderLocked? && g.current == x
       case ReadAfterLoss(job) => g.at == Merge(job) && g.current == f.current
       case FailRead(permanent) => g.at == FailDecide(permanent) && g.current == f.current
       case _ => false
  }

  lemma ReadBrings(cfg: Config, s: State, id: Id, f: Flight) returns (g: Flight)
    requires Reads(f.at) && Live(s, id)
    ensures StepFlight(cfg, s, id, f, Go) == (g, NoEffect) && HasRead(f, g, s.store[id].sess)
  {
    g := StepFlight(cfg, s, id, f, Go).0;
  }

  lemma FreshReturns(cfg: Config, s: State, id: Id, f: Flight, g: Flight, x: Session)
    requires HasRead(f, g, x) && !NeedsRefresh(cfg, x, s.now)
    requires f.at.ReadAfterLoss? ==> x.version > f.at.job.expected
    ensures StepFlight(cfg, s, id, g, Go) == (Return(g, Some(x)), NoEffect)
  {
    hide NeedsRefresh;
  }

  /** A refresh that reads a session whose tokens are not due, because somebody else refreshed it,
      hands on exactly that session and writes nothing. */
  lemma FreshIsHandedOn(cfg: Config, a: Answers, s: State, p: Pid, id: Id, f: Flight) returns (t: State)
    requires Flies(s, p, id, f) && Reads(f.at) && Live(s, id) && !NeedsRefresh(cfg, s.store[id].sess, s.now)
    requires f.at.ReadAfterLoss? ==> s.store[id].sess.version > f.at.job.expected
    ensures Leaves(cfg, a, s, t, p, id, Some(s.store[id].sess)) && t.store == s.store
  {
    hide Alone, Flies, StepFlight, NeedsRefresh, Leaves;
    var g := ReadBrings(cfg, s, id, f);
    AloneNone(cfg, a, s, p);
    var u := Onwards(cfg, a, s, s, p, id, f, Go, g);
    FreshReturns(cfg, u, id, f, g, s.store[id].sess);
    t := LastStep(cfg, a, s, u, p, id, g, Some(s.store[id].sess));
  }

  /** After a lost race the session is gone for good, or a newer version is stored. */
  ghost predicate Overtaken(s: State, id: Id, expected: nat) {
    Dead(s, id) || (Hist(s, id) != [] && Latest(Hist(s, id)).version > expected)
  }

  ghost predicate LossInv(s: State) {
    forall p <- s.handlers | s.handlers[p].pc.Refresh? && s.handlers[p].pc.flight.at.ReadAfterLoss? ::
      Overtaken(s, s.handlers[p].id, s.handlers[p].pc.flight.at.job.expected)
  }

  lemma OvertakenStays(cfg: Config, s: State, e: Event, id: Id, expected: nat)
    requires Inv(cfg, s) && Overtaken(s, id, expected)
    ensures Overtaken(Next(cfg, s, e), id, expected)
  {
    hide Next, Chain, HandlerInv, Dead;
    var t := Next(cfg, s, e);
    NextKeepsInv(cfg, s, e);
    assert IdInv(t, id) && Grows(ViewOf(s, id), ViewOf(t, id));
    if Dead(s, id) { NextKeepsDead(cfg, s, e, id); } else { PrefixIsEarlier(Hist(s, id), Hist(t, id)); }
  }

  /** Only a lost compare-and-set gets to the read after it. */
  lemma OnlyLossRereads(cfg: Config, s: State, h: Handler, ch: Choice)
    ensures var pc := StepHandler(cfg, s, h, ch).0;
            pc.Refresh? && pc.flight.at.ReadAfterLoss? ==>
              && h.pc.Refresh? && h.pc.flight.at.Store? && pc.flight.at.job == h.pc.flight.at.job
              && !CanUpdate(s, h.id, pc.flight.at.job.expected)
  {
    hide NeedsRefresh, LifetimeExceeded, SessionTTLFor, StepLock, StepFail, StepMain, StepExchange, StepMerge;
    if h.pc.Refresh? { OthersDoNotReread(cfg, s, h.id, h.pc.flight, ch); }
  }

  lemma OthersDoNotReread(cfg: Config, s: State, id: Id, f: Flight, ch: Choice)
    ensures Waiting(f.at) ==> !StepLock(cfg, s, id, f, ch).0.at.ReadAfterLoss?
    ensures Failing(f.at) ==> !StepFail(cfg, s, id, f, ch).0.at.ReadAfterLoss?
    ensures f.at.Exchanging? ==> !StepExchange(id, f, ch).0.at.ReadAfterLoss?
    ensures f.at.Merge? ==> !StepMerge(cfg, s.now, f, f.at.job).at.ReadAfterLoss?
    ensures !Waiting(f.at) && !Storing(f.at) && !Failing(f.at) && !f.at.Exchanging? ==>
              !StepMain(cfg, s, id, f, ch).0.at.ReadAfterLoss?
  {
    hide NeedsRefresh, Read, Acceptable, ApplyTokens, Rebase;
  }

  /** The step that loses. */
  lemma LossOvertakes(cfg: Config, s: State, p: Pid)
    requires Inv(cfg, s) && p in s.handlers && s.handlers[p].pc.Refresh? && s.handlers[p].pc.flight.at.Store?
    requires !CanUpdate(s, s.handlers[p].id, s.handlers[p].pc.flight.at.job.expected)
    ensures Overtaken(s, s.handlers[p].id, s.handlers[p].pc.flight.at.job.expected)
  {
    hide Chain, FreshInv;
    var h := s.handlers[p];
    assert HandlerInv(cfg, s, h) && IdInv(s, h.id);
    LatestRecorded(Hist(s, h.id));
  }

  lemma NextKeepsLoss(cfg: Config, s: State, e: Event)
    requires Inv(cfg, s) && LossInv(s)
    ensures LossInv(Next(cfg, s, e))
  {
    hide Inv, Overtaken, Next;
    var t := Next(cfg, s, e);
    forall p <- t.handlers | t.handlers[p].pc.Refresh? && t.handlers[p].pc.flight.at.ReadAfterLoss?
      ensures Overtaken(t, t.handlers[p].id, t.handlers[p].pc.flight.at.job.expected)
    {
      RereadCameFrom(cfg, s, e, p);
      var job := t.handlers[p].pc.flight.at.job;
      if s.handlers[p].pc != t.handlers[p].pc { LossOvertakes(cfg, s, p); }
      OvertakenStays(cfg, s, e, t.handlers[p].id, job.expected);
    }
  }

  lemma RereadCameFrom(cfg: Config, s: State, e: Event, p: Pid)
    requires var t := Next(cfg, s, e); p in t.handlers && t.handlers[p].pc.Refresh? && t.handlers[p].pc.flight.at.ReadAfterLoss?
    ensures var g := Next(cfg, s, e).handlers[p];
            && p in s.handlers && s.handlers[p].id == g.id
            && (s.handlers[p].pc == g.pc
                || (&& s.handlers[p].pc.Refresh? && s.handlers[p].pc.flight.at.Store? && s.handlers[p].pc.flight.at.job == g.pc.flight.at.job
                    && !CanUpdate(s, g.id, g.pc.flight.at.job.expected)))
  {
    hide StepHandler, Apply, SessionTTLFor, NewSession;
    if e.Run? && Enabled(s, e) {
      OnlyLossRereads(cfg, s, s.handlers[e.pid], e.choice);
      ApplyKeepsHandlers(s, e.pid, StepHandler(cfg, s, s.handlers[e.pid], e.choice).1);
    }
  }

  lemma {:induction false} ExecKeepsLoss(cfg: Config, s: State, events: seq<Event>)
    requires Inv(cfg, s) && LossInv(s)
    ensures LossInv(Exec(cfg, s, events))
    decreases |events|
  {
    hide Inv, LossInv, Next;
    if events != [] {
      NextKeepsInv(cfg, s, events[0]);
      NextKeepsLoss(cfg, s, events[0]);
      ExecKeepsLoss(cfg, Next(cfg, s, events[0]), events[1..]);
    }
  }

  /** In every run, a session that a refresh can still read after it lost its race is newer than the
      one it wanted to replace. */
  lemma LossMeansNewer(cfg: Config, s0: State, events: seq<Event>, p: Pid)
    requires Init(s0)
    ensures var s := Exec(cfg, s0, events);
            p in s.handlers && s.handlers[p].pc.Refresh? && s.handlers[p].pc.flight.at.ReadAfterLoss? && Live(s, s.handlers[p].id) ==>
              s.store[s.handlers[p].id].sess.version > s.handlers[p].pc.flight.at.job.expected
  {
    hide Init, Exec, HandlerInv, FreshInv, Chain;
    var s := Exec(cfg, s0, events);
    InitInv(cfg, s0);
    ExecKeepsInv(cfg, s0, events);
    assert LossInv(s0) by { NobodyLostYet(s0); }
    ExecKeepsLoss(cfg, s0, events);
    if p in s.handlers { assert IdInv(s, s.handlers[p].id); }
  }

  lemma NobodyLostYet(s: State)
    requires Init(s)
    ensures LossInv(s)
  {
  }

  lemma GoneSteps(cfg: Config, s: State, id: Id, f: Flight) returns (g: Flight)
    requires Reads(f.at) && !f.at.FailRead? && !f.at.ReadAfterLoss? && !Live(s, id)
    ensures StepFlight(cfg, s, id, f, Go) == (g, NoEffect)
    ensures g.at == (if f.locked then Release else Finished) && g.outcome == None
  {
    g := StepFlight(cfg, s, id, f, Go).0;
  }

  lemma LossFindsNothing(cfg: Config, s: State, id: Id, f: Flight, ch: Choice)
    requires f.at.ReadAfterLoss? && (ch.Fault? || !Live(s, id))
    ensures StepFlight(cfg, s, id, f, ch) == (f.(found := None, at := Merge(f.at.job)), NoEffect)
    ensures var g := f.(found := None, at := Merge(f.at.job)); StepFlight(cfg, s, id, g, Go) == (Return(g, None), NoEffect)
  {
  }

  /** A refresh that finds its session gone hands on nothing and writes nothing. */
  lemma GoneIsNotServed(cfg: Config, a: Answers, s: State, p: Pid, id: Id, f: Flight) returns (t: State)
    requires Flies(s, p, id, f) && Reads(f.at) && !f.at.FailRead? && !Live(s, id)
    ensures Leaves(cfg, a, s, t, p, id, None) && t.store == s.store
  {
    hide Alone, Flies, StepFlight, Leaves;
    AloneNone(cfg, a, s, p);
    if f.at.ReadAfterLoss? {
      LossFindsNothing(cfg, s, id, f, Go);
      var g := f.(found := None, at := Merge(f.at.job));
      var u := Onwards(cfg, a, s, s, p, id, f, Go, g);
      LossFindsNothing(cfg, u, id, f, Go);
      t := LastStep(cfg, a, s, u, p, id, g, None);
    } else {
      var g := GoneSteps(cfg, s, id, f);
      var u := Onwards(cfg, a, s, s, p, id, f, Go, g);
      t := LeavesFrom(cfg, a, s, u, p, id, g);
    }
  }

  lemma LossReturns(cfg: Config, s: State, id: Id, f: Flight, g: Flight, x: Session)
    requires f.at.ReadAfterLoss? && HasRead(f, g, x) && NeedsRefresh(cfg, x, s.now)
    requires f.at.job.attempt >= 2 || x.userId != f.current.userId || x.refresh != f.current.refresh
    ensures StepFlight(cfg, s, id, g, Go) == (Return(g, None), NoEffect)
  {
    hide NeedsRefresh;
  }

  /** A refresh that lost its race for the third time, or to a session of another user or with
      another refresh token that is due again, hands on nothing and writes nothing. */
  lemma LostRaceIsNotServed(cfg: Config, a: Answers, s: State, p: Pid, id: Id, f: Flight) returns (t: State)
    requires Flies(s, p, id, f) && f.at.ReadAfterLoss? && Live(s, id) && NeedsRefresh(cfg, s.store[id].sess, s.now)
    requires var x := s.store[id].sess;
             f.at.job.attempt >= 2 || x.userId != f.current.userId || x.refresh != f.current.refresh
    ensures Leaves(cfg, a, s, t, p, id, None) && t.store == s.store
  {
    hide Alone, Flies, StepFlight, NeedsRefresh, Leaves;
    var g := ReadBrings(cfg, s, id, f);
    AloneNone(cfg, a, s, p);
    var u := Onwards(cfg, a, s, s, p, id, f, Go, g);
    LossReturns(cfg, u, id, f, g, s.store[id].sess);
    t := LastStep(cfg, a, s, u, p, id, g, None);
  }

  // ---- what fails ----

  /** What a failed refresh serves, when it read no session with fresh tokens. */
  function Graced(cfg: Config, f: Flight, permanent: bool, now: Time): Option<Session> {
    if !permanent && now < f.current.expiry + cfg.outageGrace then Some(f.current) else None
  }

  lemma FailDecides(cfg: Config, s: State, id: Id, f: Flight)
    requires f.at.FailDecide? && (f.found.Some? ==> NeedsRefresh(cfg, f.found.value, s.now))
    ensures StepFlight(cfg, s, id, f, Go) ==
            (if Graced(cfg, f, f.at.permanent, s.now).Some? then Return(f, Some(f.current)) else f.(at := FailDelete), NoEffect)
  {
    hide NeedsRefresh;
  }

  /** From the decision on, with what was read, or nothing. */
  lemma FailureGoesOn(cfg: Config, a: Answers, s: State, u: State, p: Pid, id: Id, f: Flight) returns (t: State)
    requires Alone(cfg, a, s, u, p) && u.now == s.now && Flies(u, p, id, f) && f.at.FailDecide?
    requires f.found.Some? ==> NeedsRefresh(cfg, f.found.value, u.now)
    ensures var served := Graced(cfg, f, f.at.permanent, u.now);
            Leaves(cfg, a, s, t, p, id, served) && t.store == (if served.Some? then u.store else u.store - {id})
    ensures f.locked && HoldsLock(u, p, id) ==> LockFree(t, id)
  {
    hide Alone, Flies, StepFlight, NeedsRefresh, Leaves, LockFree;
    FailDecides(cfg, u, id, f);
    if Graced(cfg, f, f.at.permanent, u.now).Some? {
      t := LastStep(cfg, a, s, u, p, id, f, Some(f.current));
    } else {
      var v := Onwards(cfg, a, s, u, p, id, f, Go, f.(at := FailDelete));
      var w := FailDeleteMoves(cfg, a, v, p, id, f.(at := FailDelete));
      AloneOn(cfg, a, s, v, w, p);
      t := LeavesFrom(cfg, a, s, w, p, id, Return(f.(at := FailDelete), None));
    }
  }

  lemma FailReads(cfg: Config, s: State, id: Id, f: Flight, ch: Choice)
    requires f.at.FailRead?
    ensures StepFlight(cfg, s, id, f, ch) ==
            (f.(found := if ch.Fault? then None else Read(s, id), at := FailDecide(f.at.permanent)), NoEffect)
  {
    hide Read;
  }

  /** A failed refresh that finds its session due, or gone, serves the session it set out with as
      long as the failure is not a refusal and the grace period lasts; after that, or refused, it
      deletes the session. */
  lemma FailureLeaves(cfg: Config, a: Answers, s: State, p: Pid, id: Id, f: Flight) returns (t: State)
    requires Flies(s, p, id, f) && f.at.FailRead?
    requires Live(s, id) ==> NeedsRefresh(cfg, s.store[id].sess, s.now)
    ensures var served := Graced(cfg, f, f.at.permanent, s.now);
            Leaves(cfg, a, s, t, p, id, served) && t.store == (if served.Some? then s.store else s.store - {id})
    ensures f.locked && HoldsLock(s, p, id) ==> LockFree(t, id)
  {
    hide Alone, Flies, StepFlight, NeedsRefresh, Leaves, LockFree;
    AloneNone(cfg, a, s, p);
    FailReads(cfg, s, id, f, Go);
    var g := f.(found := Read(s, id), at := FailDecide(f.at.permanent));
    var u := Onwards(cfg, a, s, s, p, id, f, Go, g);
    t := FailureGoesOn(cfg, a, s, u, p, id, g);
  }

  // ---- what a fault of the store does ----

  /** The step in which the store fails p. */
  lemma FaultMoves(cfg: Config, s: State, p: Pid, id: Id, f: Flight, g: Flight) returns (t: State)
    requires Flies(s, p, id, f) && !f.at.Finished? && StepFlight(cfg, s, id, f, Fault) == (g, NoEffect)
    ensures t == Next(cfg, s, Run(p, Fault)) && Flies(t, p, id, g)
    ensures t.now == s.now && t.store == s.store && t.locks == s.locks
  {
    hide StepFlight;
    t := Next(cfg, s, Run(p, Fault));
  }

  lemma FaultReturns(cfg: Config, s: State, id: Id, f: Flight) returns (g: Flight)
    requires f.at.ReadStored? || f.at.Store? || f.at.FailDelete? || f.at.EndLifetime?
    ensures StepFlight(cfg, s, id, f, Fault) == (g, NoEffect)
    ensures g.at == (if f.locked then Release else Finished) && g.outcome == None
  {
    g := StepFlight(cfg, s, id, f, Fault).0;
  }

  /** A store that fails while it reads the session first, writes or deletes it ends the refresh
      with nothing to serve, and the session stays as it is. */
  lemma FaultIsNotServed(cfg: Config, a: Answers, s: State, p: Pid, id: Id, f: Flight) returns (t: State)
    requires Flies(s, p, id, f)
    requires f.at.ReadStored? || f.at.Store? || f.at.ReadAfterLoss? || f.at.FailDelete? || f.at.EndLifetime?
    ensures Leaves(cfg, a, Next(cfg, s, Run(p, Fault)), t, p, id, None) && t.store == s.store
  {
    hide Alone, Flies, StepFlight, Leaves, Next;
    var g;
    if f.at.ReadAfterLoss? {
      LossFindsNothing(cfg, s, id, f, Fault);
      g := f.(found := None, at := Merge(f.at.job));
    } else {
      g := FaultReturns(cfg, s, id, f);
    }
    var u := FaultMoves(cfg, s, p, id, f, g);
    AloneNone(cfg, a, u, p);
    if f.at.ReadAfterLoss? {
      LossFindsNothing(cfg, u, id, f, Fault);
      t := LastStep(cfg, a, u, u, p, id, g, None);
    } else {
      t := LeavesFrom(cfg, a, u, u, p, id, g);
    }
  }

  lemma LockFaultSteps(cfg: Config, s: State, id: Id, f: Flight)
    requires f.at.TryLock? || f.at.ReadWaiting? || f.at.ReadLocked? || (f.at.AwaitLock? && s.now >= f.deadline)
    ensures StepFlight(cfg, s, id, f, Fault) ==
            (f.(at := if f.at.ReadLocked? then ReleaseFailing else FailRead(false)), NoEffect)
  {
  }

  lemma ReleaseFailingSteps(cfg: Config, s: State, id: Id, f: Flight)
    requires f.at.ReleaseFailing?
    ensures StepFlight(cfg, s, id, f, Go) == (f.(at := FailRead(false), locked := false), Free(id))
  {
  }

  /** A store that fails while the lock is taken or waited for is an outage, not a refusal: within
      the grace period the session is served as it is, and a lock that was taken is given back. */
  lemma LockFaultIsOutage(cfg: Config, a: Answers, s: State, p: Pid, id: Id, f: Flight) returns (t: State)
    requires Flies(s, p, id, f)
    requires f.at.TryLock? || f.at.ReadWaiting? || f.at.ReadLocked? || (f.at.AwaitLock? && s.now >= f.deadline)
    requires Live(s, id) ==> NeedsRefresh(cfg, s.store[id].sess, s.now)
    ensures var served := Graced(cfg, f, false, s.now);
            && Leaves(cfg, a, Next(cfg, s, Run(p, Fault)), t, p, id, served)
            && t.store == (if served.Some? then s.store else s.store - {id})
    ensures f.at.ReadLocked? && HoldsLock(s, p, id) ==> id !in Next(cfg, Next(cfg, s, Run(p, Fault)), Run(p, Go)).locks
  {
    hide Alone, Flies, StepFlight, NeedsRefresh, Leaves, LockFree, Next;
    LockFaultSteps(cfg, s, id, f);
    var g := f.(at := if f.at.ReadLocked? then ReleaseFailing else FailRead(false));
    var u := FaultMoves(cfg, s, p, id, f, g);
    if f.at.ReadLocked? {
      ReleaseFailingSteps(cfg, u, id, g);
      var h := g.(at := FailRead(false), locked := false);
      var v := FreesLock(cfg, a, u, p, id, g, h);
      t := FailureLeaves(cfg, a, v, p, id, h);
      LeavesLater(cfg, a, u, v, t, p, id, Graced(cfg, f, false, s.now));
    } else {
      t := FailureLeaves(cfg, a, u, p, id, g);
    }
  }

  lemma FreesLock(cfg: Config, a: Answers, s: State, p: Pid, id: Id, f: Flight, g: Flight) returns (t: State)
    requires Flies(s, p, id, f) && !f.at.Finished? && !f.at.Exchanging? && StepFlight(cfg, s, id, f, Go) == (g, Free(id))
    ensures t == Next(cfg, s, Run(p, Go)) && Alone(cfg, a, s, t, p) && Flies(t, p, id, g)
    ensures t.now == s.now && t.store == s.store && (HoldsLock(s, p, id) ==> id !in t.locks)
  {
    HandlerMoves(cfg, a, s, p, id, Refresh(f), Go);
    hide StepFlight, Alone;
    t := Next(cfg, s, Run(p, Go));
  }

  lemma LeavesLater(cfg: Config, a: Answers, s: State, u: State, t: State, p: Pid, id: Id, served: Option<Session>)
    requires Alone(cfg, a, s, u, p) && u.now == s.now && Leaves(cfg, a, u, t, p, id, served)
    ensures Leaves(cfg, a, s, t, p, id, served)
  {
    hide Alone;
    AloneOn(cfg, a, s, u, t, p);
  }

  /** A store that fails when a request reads its session, or deletes one past a limit, leaves the
      session as it is, and the request gets nothing. */
  lemma FaultyRequestGetsNothing(cfg: Config, s: State, p: Pid, id: Id)
    requires At(s, p, id, Load) || At(s, p, id, Expire)
    ensures var t := Next(cfg, s, Run(p, Fault)); At(t, p, id, Done(None)) && t.store == s.store
  {
  }

  // ---- the end of a lifetime ----

  lemma TtlEnds(cfg: Config, s: State, id: Id, f: Flight)
    requires f.at.ComputeTtl? && SessionTTLFor(cfg, f.at.updated, s.now) <= 0
    ensures StepFlight(cfg, s, id, f, Go) == (f.(at := EndLifetime), NoEffect)
  {
    hide SessionTTLFor;
  }

  /** Tokens that arrive for a session past a limit are not stored: the session is deleted. */
  lemma LimitEndsRefresh(cfg: Config, a: Answers, s: State, p: Pid, id: Id, f: Flight) returns (t: State)
    requires Flies(s, p, id, f) && f.at.ComputeTtl? && f.at.updated.createdAt != ZERO_TIME && cfg.sessionTTL > 0
    requires !WithinLimits(cfg, f.at.updated, s.now)
    ensures Leaves(cfg, a, s, t, p, id, None) && t.store == s.store - {id}
  {
    LimitsAreExact(cfg, f.at.updated, s.now);
    hide Alone, Flies, StepFlight, Leaves, SessionTTLFor, WithinLimits, LockFree, HoldsLock;
    TtlEnds(cfg, s, id, f);
    AloneNone(cfg, a, s, p);
    var g := f.(at := EndLifetime);
    var u := Onwards(cfg, a, s, s, p, id, f, Go, g);
    var v := LifetimeEnds(cfg, a, u, p, id, g);
    AloneOn(cfg, a, s, u, v, p);
    t := LeavesFrom(cfg, a, s, v, p, id, Return(g, None));
  }

  lemma LifetimeEnds(cfg: Config, a: Answers, s: State, p: Pid, id: Id, f: Flight) returns (t: State)
    requires Flies(s, p, id, f) && f.at.EndLifetime?
    ensures Alone(cfg, a, s, t, p) && Flies(t, p, id, Return(f, None)) && t.store == s.store - {id} && t.now == s.now
  {
    assert StepFlight(cfg, s, id, f, Go) == (Return(f, None), Remove(id));
    hide StepFlight, Alone, Return;
    t := FlightMoves(cfg, a, s, p, id, f, Go, Return(f, None), Remove(id));
  }

  // ---- out of time ----

  lemma TimeoutSteps(cfg: Config, s: State, id: Id, f: Flight)
    requires (f.at.Ready? && s.now >= f.deadline) || (f.at.CheckWait? && s.now >= f.giveUp)
    ensures StepFlight(cfg, s, id, f, Go) == (f.(at := FailRead(false)), NoEffect)
  {
  }

  /** A refresh that has waited too long for the lock, or is past its deadline before it gets to the
      token endpoint, ends like one that met an outage. */
  lemma TimeoutIsOutage(cfg: Config, a: Answers, s: State, p: Pid, id: Id, f: Flight) returns (t: State)
    requires Flies(s, p, id, f) && ((f.at.Ready? && s.now >= f.deadline) || (f.at.CheckWait? && s.now >= f.giveUp))
    requires Live(s, id) ==> NeedsRefresh(cfg, s.store[id].sess, s.now)
    ensures var served := Graced(cfg, f, false, s.now);
            Leaves(cfg, a, s, t, p, id, served) && t.store == (if served.Some? then s.store else s.store - {id})
  {
    hide Alone, Flies, StepFlight, NeedsRefresh, Leaves, LockFree;
    AloneNone(cfg, a, s, p);
    TimeoutSteps(cfg, s, id, f);
    var u := Onwards(cfg, a, s, s, p, id, f, Go, f.(at := FailRead(false)));
    t := FailureLeaves(cfg, a, u, p, id, f.(at := FailRead(false)));
    LeavesLater(cfg, a, s, u, t, p, id, Graced(cfg, f, false, s.now));
  }

  // ---- a request whose refresh fails ----

  /** A request whose refresh the provider refuses gets nothing, and the session is gone. One whose
      provider cannot be reached is served the session as it is, with its activity recorded, while
      the grace period lasts, and after that gets nothing, and the session is gone. */
  lemma RequestOfFailedRefresh(cfg: Config, a: Answers, s: State, p: Pid, id: Id) returns (t: State)
    requires At(s, p, id, Load) && Live(s, id) && WithinLimits(cfg, s.store[id].sess, s.now)
    requires cfg.sessionTTL > 0 && s.now > ZERO_TIME && NeedsRefresh(cfg, s.store[id].sess, s.now)
    requires NobodyLeads(s, p, id) && (cfg.locker ==> LockFree(s, id))
    requires a.exchange.Unavailable? || a.exchange.Rejected? || a.exchange.BadIdToken?
             || (a.exchange.Tokens? && a.exchange.resp.identity.Some?
                 && a.exchange.resp.identity.value.subject != s.store[id].sess.userId)
    ensures var sess := s.store[id].sess;
            var x := WithActivity(cfg, sess, s.handlers[p].background, s.now);
            && Ends(cfg, a, s, t, p) && t.now == s.now && (cfg.locker ==> LockFree(t, id))
            && (if a.exchange.Unavailable? && s.now < sess.expiry + cfg.outageGrace
                then At(t, p, id, Done(Some(x))) && (if x == sess then t.store == s.store else Stores(cfg, s, t, id, x))
                else At(t, p, id, Done(None)) && t.store == s.store - {id})
  {
    var sess := s.store[id].sess;
    hide Next, Alone, Ends, NeedsRefresh, WithinLimits, Acceptable, LockFree, WithActivity, Stores;
    var s1, f := GetsToExchange(cfg, a, s, p, id);
    var s2, g := FailureOutcome(cfg, a, s1, p, id, f, a.exchange);
    var s3 := LeavesExchange(cfg, a, s, s1, s2, p, id, g);
    AloneKeepsBackground(cfg, a, s, s3, p);
    if g.outcome.Some? {
      t := RecordFinishes(cfg, a, s3, p, id, sess);
      AloneOn(cfg, a, s, s3, t, p);
      SameLocks(s3, t, id);
    } else {
      t := s3;
    }
    AloneEnds(cfg, a, s, t, p);
  }

  lemma LeavesExchange(cfg: Config, a: Answers, s: State, u: State, v: State, p: Pid, id: Id, f: Flight) returns (t: State)
    requires Alone(cfg, a, s, u, p) && Alone(cfg, a, u, v, p) && u.now == s.now && v.now == s.now
    requires Flies(v, p, id, f) && (f.at.Release? || f.at.Finished?) && (cfg.locker ==> f.at.Release? && HoldsLock(v, p, id))
    ensures Leaves(cfg, a, s, t, p, id, f.outcome) && t.store == v.store && (cfg.locker ==> LockFree(t, id))
  {
    hide Alone, Flies, LockFree, Leaves;
    AloneOn(cfg, a, s, u, v, p);
    t := LeavesFrom(cfg, a, s, v, p, id, f);
  }
}
