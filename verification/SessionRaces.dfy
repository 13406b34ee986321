/** Runs of two replicas in which a property that could be expected fails. Each is given for every
    configuration and session that meets what it says, and then once in numbers. */
module SessionRaces {
  import opened Basics
  import opened Sessions
  import opened SessionProtocol
  import opened SessionProgress
  import OutageGrace
  import SessionDeletion
  import opened SessionInvariant
  import SessionRuns

  // ---- putting runs together ----

  /** Some run leads from s to t; a safe one has no refusal in it. */
  ghost predicate ComesTo(cfg: Config, s: State, t: State, safe: bool) {
    exists events :: Exec(cfg, s, events) == t && (safe ==> OutageGrace.NoRefusals(cfg, s, events))
  }

  lemma {:induction false} NoRefusalsOn(cfg: Config, s: State, a: seq<Event>, b: seq<Event>)
    requires OutageGrace.NoRefusals(cfg, s, a) && OutageGrace.NoRefusals(cfg, Exec(cfg, s, a), b)
    ensures OutageGrace.NoRefusals(cfg, s, a + b)
    decreases |a|
  {
    hide Next, OutageGrace.IsRefusal;
    if a == [] {
      assert a + b == b;
    } else {
      assert (a + b)[1..] == a[1..] + b;
      NoRefusalsOn(cfg, Next(cfg, s, a[0]), a[1..], b);
    }
  }

  lemma ComesOn(cfg: Config, s: State, t: State, u: State, safe: bool)
    requires ComesTo(cfg, s, t, safe) && ComesTo(cfg, t, u, safe)
    ensures ComesTo(cfg, s, u, safe)
  {
    hide Exec, OutageGrace.NoRefusals;
    var a :| Exec(cfg, s, a) == t && (safe ==> OutageGrace.NoRefusals(cfg, s, a));
    var b :| Exec(cfg, t, b) == u && (safe ==> OutageGrace.NoRefusals(cfg, t, b));
    SessionRuns.ExecSplits(cfg, s, a, b);
    if safe { NoRefusalsOn(cfg, s, a, b); }
    assert Exec(cfg, s, a + b) == u;
  }

  lemma OneEvent(cfg: Config, s: State, e: Event, safe: bool)
    requires safe ==> !OutageGrace.IsRefusal(s, e)
    ensures ComesTo(cfg, s, Next(cfg, s, e), safe)
  {
    hide Next, OutageGrace.IsRefusal;
    assert [e][1..] == [];
    assert Exec(cfg, s, [e]) == Next(cfg, s, e);
    assert safe ==> OutageGrace.NoRefusals(cfg, s, [e]);
  }

  /** The token endpoint answers nothing that refuses. */
  predicate Harmless(a: Answers) {
    a.exchange.Unavailable? || (a.exchange.Tokens? && a.exchange.resp.identity.None?)
  }

  lemma HarmlessStep(s: State, p: Pid, a: Answers)
    requires Harmless(a)
    ensures !OutageGrace.IsRefusal(s, Run(p, AnswerTo(s, p, a)))
  {
  }

  lemma {:induction false} DriveComesTo(cfg: Config, a: Answers, s: State, p: Pid, n: nat, safe: bool)
    requires safe ==> Harmless(a)
    ensures ComesTo(cfg, s, Drive(cfg, a, s, p, n), safe)
    decreases n
  {
    hide Next, ComesTo, AnswerTo, Harmless;
    if n == 0 {
      NoEvent(cfg, s, safe);
    } else {
      var e := Run(p, AnswerTo(s, p, a));
      if safe { HarmlessStep(s, p, a); }
      OneEvent(cfg, s, e, safe);
      DriveComesTo(cfg, a, Next(cfg, s, e), p, n - 1, safe);
      ComesOn(cfg, s, Next(cfg, s, e), Drive(cfg, a, s, p, n), safe);
    }
  }

  lemma NoEvent(cfg: Config, s: State, safe: bool)
    ensures ComesTo(cfg, s, s, safe)
  {
    assert Exec(cfg, s, []) == s && OutageGrace.NoRefusals(cfg, s, []);
  }

  /** The steps of one handler, as part of a run with another. */
  lemma Interleave(cfg: Config, a: Answers, s0: State, s: State, t: State, p: Pid, q: Pid, safe: bool)
    requires ComesTo(cfg, s0, s, safe) && Alone(cfg, a, s, t, p) && (safe ==> Harmless(a))
    requires p in s.handlers && q in s.handlers && q != p
    ensures ComesTo(cfg, s0, t, safe)
    ensures t.handlers.Keys == s.handlers.Keys && t.handlers[q] == s.handlers[q] && t.handlers[p].proc == s.handlers[p].proc
  {
    hide Drive, ComesTo, Harmless;
    var n: nat :| Drive(cfg, a, s, p, n) == t;
    DriveComesTo(cfg, a, s, p, n, safe);
    DriveKeepsHandlers(cfg, a, s, p, n);
    ComesOn(cfg, s0, s, t, safe);
  }

  // ---- the start ----

  /** One stored session and nobody at work. */
  function Stored(now: Time, id: Id, sess: Session, expiresAt: Time): State {
    State(now, map[id := Entry(sess, expiresAt, Earlier)], map[id := [Write(sess, Created)]], {id}, {}, map[], map[])
  }

  /** A session that can be read, is within its limits and needs its refresh. */
  predicate Fit(cfg: Config, now: Time, sess: Session, expiresAt: Time) {
    ZERO_TIME < now <= expiresAt && NeedsRefresh(cfg, sess, now) && WithinLimits(cfg, sess, now)
  }

  predicate Storable(cfg: Config, now: Time, sess: Session, resp: Response) {
    Acceptable(sess, resp) && cfg.sessionTTL > 0 && WithinLimits(cfg, sess, now)
  }

  /** Two handlers on two replicas, about to start. */
  lemma BothStart(cfg: Config, s0: State, first: Event, second: Event, safe: bool) returns (s: State)
    requires s0.handlers == map[] && (first.Request? || first.DeleteBy?) && second.Request? && first.pid == 1 && second.pid == 2
    ensures ComesTo(cfg, s0, s, safe) && s.now == s0.now && s.store == s0.store && s.locks == s0.locks
    ensures 1 in s.handlers && 2 in s.handlers && s.handlers.Keys == {1, 2}
    ensures s.handlers[1] == Handler(first.proc, if first.Request? then first.id else "", s0.now,
                                     first.Request? && first.background, if first.Request? then Load else Lookup(first.target), None)
    ensures s.handlers[2] == Handler(second.proc, second.id, s0.now, second.background, Load, None)
  {
    var s1 := Next(cfg, s0, first);
    s := Next(cfg, s1, second);
    OneEvent(cfg, s0, first, safe);
    OneEvent(cfg, s1, second, safe);
    ComesOn(cfg, s0, s1, s, safe);
  }

  // ---- a refresh ----

  /** A request that reads, refreshes and stores. */
  lemma Refreshes(cfg: Config, a: Answers, s: State, p: Pid, id: Id, resp: Response) returns (t: State)
    requires At(s, p, id, Load) && (cfg.locker ==> LockFree(s, id)) && Live(s, id) && NobodyLeads(s, p, id)
    requires Fit(cfg, s.now, s.store[id].sess, s.store[id].expiresAt) && Storable(cfg, s.now, s.store[id].sess, resp)
    requires a.exchange == Tokens(resp)
    ensures Alone(cfg, a, s, t, p) && t.now == s.now && Live(t, id)
    ensures t.store[id].sess == ApplyTokens(s.store[id].sess, resp)
  {
    hide Alone, NeedsRefresh, WithinLimits, Acceptable, ApplyTokens, SessionTTLFor;
    var s1 := RequestDecides(cfg, a, s, p, id);
    assert NobodyLeads(s1, p, id);
    t := DecisionGoesOn(cfg, a, s1, p, id, s.store[id].sess, resp);
    AloneOn(cfg, a, s, s1, t, p);
  }

  // ---- a renewed session is deleted ----

  /** A refresh has failed, and the grace period is over. */
  lemma WantsToDelete(cfg: Config, a: Answers, s0: State, s: State, p: Pid, id: Id, f: Flight) returns (t: State, g: Flight)
    requires Alone(cfg, a, s0, s, p) && Flies(s, p, id, f) && f.at == FailRead(false)
    requires Live(s, id) && s.store[id].sess == f.current && NeedsRefresh(cfg, f.current, s.now)
    requires s.now >= f.current.expiry + cfg.outageGrace
    ensures Alone(cfg, a, s0, t, p) && Flies(t, p, id, g) && g.at.FailDelete? && t.now == s.now && t.store == s.store
  {
    hide StepFlight, Alone, Flies, NeedsRefresh;
    FailReadSteps(cfg, s, id, f);
    var f1 := f.(found := Some(f.current), at := FailDecide(false));
    var s1 := Onwards(cfg, a, s0, s, p, id, f, Go, f1);
    FailDecideSteps(cfg, s1, id, f1);
    g := f1.(at := FailDelete);
    t := Onwards(cfg, a, s0, s1, p, id, f1, Go, g);
  }

  /** The token endpoint cannot be reached and the grace period is over. */
  lemma FailsToDelete(cfg: Config, a: Answers, s: State, p: Pid, id: Id, f: Flight) returns (t: State, g: Flight)
    requires Flies(s, p, id, f) && f.at.Exchanging? && a.exchange.Unavailable?
    requires Live(s, id) && s.store[id].sess == f.current && NeedsRefresh(cfg, f.current, s.now)
    requires s.now >= f.current.expiry + cfg.outageGrace
    ensures Alone(cfg, a, s, t, p) && Flies(t, p, id, g) && g.at.FailDelete? && t.now == s.now && t.store == s.store
  {
    hide StepFlight, Alone, Flies, NeedsRefresh, OutageGrace.Refuses;
    FailureSteps(cfg, s, id, f, a.exchange);
    OutageIsNoRefusal(f, a.exchange);
    AloneNone(cfg, a, s, p);
    var f1 := f.(at := FailRead(false));
    var s1 := Onwards(cfg, a, s, s, p, id, f, a.exchange, f1);
    t, g := WantsToDelete(cfg, a, s, s1, p, id, f1);
  }

  /** The first one gets to the point of deleting the session; the other one has not started. */
  lemma FirstWantsToDelete(cfg: Config, s0: State, id: Id, safe: bool) returns (s: State, f: Flight)
    requires !cfg.locker && s0.handlers == map[] && id in s0.store
    requires Fit(cfg, s0.now, s0.store[id].sess, s0.store[id].expiresAt)
    requires s0.now >= s0.store[id].sess.expiry + cfg.outageGrace
    ensures ComesTo(cfg, s0, s, safe) && TwoReplicas(s, id) && s.now == s0.now && s.store == s0.store
    ensures Flies(s, 1, id, f) && f.at.FailDelete?
  {
    var s1 := BothStart(cfg, s0, Request(1, 1, id, true), Request(2, 2, id, true), safe);
    var down := Answers(Unavailable, []);
    hide ComesTo, Alone, NeedsRefresh, WithinLimits;
    var s2, f2 := GetsToExchange(cfg, down, s1, 1, id);
    Interleave(cfg, down, s0, s1, s2, 1, 2, safe);
    s, f := FailsToDelete(cfg, down, s2, 1, id, f2);
    Interleave(cfg, down, s0, s2, s, 1, 2, safe);
  }

  /** Handlers of two replicas; the second one is about to read the session. */
  predicate TwoReplicas(s: State, id: Id) {
    s.handlers.Keys == {1, 2} && s.handlers[1].proc == 1 && s.handlers[2].proc == 2 && At(s, 2, id, Load)
  }

  lemma SecondMayLead(s: State, id: Id)
    requires TwoReplicas(s, id)
    ensures NobodyLeads(s, 2, id)
  {
  }

  /** The second one refreshes and stores; what the first one is about to do stays. */
  lemma SecondRefreshes(cfg: Config, s0: State, s: State, id: Id, resp: Response, safe: bool) returns (t: State)
    requires (cfg.locker ==> LockFree(s, id)) && ComesTo(cfg, s0, s, safe) && TwoReplicas(s, id) && (safe ==> resp.identity.None?)
    requires Live(s, id) && Fit(cfg, s.now, s.store[id].sess, s.store[id].expiresAt)
    requires Storable(cfg, s.now, s.store[id].sess, resp)
    ensures ComesTo(cfg, s0, t, safe) && t.now == s.now && Live(t, id)
    ensures t.store[id].sess == ApplyTokens(s.store[id].sess, resp)
    ensures 1 in t.handlers && t.handlers[1] == s.handlers[1]
  {
    hide ComesTo, Alone, Fit, Storable, NobodyLeads, ApplyTokens;
    SecondMayLead(s, id);
    t := Refreshes(cfg, Answers(Tokens(resp), []), s, 2, id, resp);
    Interleave(cfg, Answers(Tokens(resp), []), s0, s, t, 2, 1, safe);
  }

  /** One replica cannot reach the token endpoint and is about to delete the session. The other
      one refreshes it. The first one then deletes the refreshed session, and nothing was refused. */
  lemma RenewedIsDeleted(cfg: Config, now: Time, id: Id, sess: Session, expiresAt: Time, resp: Response)
    returns (s: State, t: State)
    requires !cfg.locker && Fit(cfg, now, sess, expiresAt) && now >= sess.expiry + cfg.outageGrace
    requires resp.identity.None? && Storable(cfg, now, sess, resp) && !NeedsRefresh(cfg, ApplyTokens(sess, resp), now)
    ensures Init(Stored(now, id, sess, expiresAt)) && ComesTo(cfg, Stored(now, id, sess, expiresAt), s, true)
    ensures Live(s, id) && s.store[id].sess == ApplyTokens(sess, resp) && !NeedsRefresh(cfg, s.store[id].sess, s.now)
    ensures 1 in s.handlers && s.handlers[1].pc.Refresh? && s.handlers[1].pc.flight.at.FailDelete?
    ensures t == Next(cfg, s, Run(1, Go)) && id !in t.store
  {
    hide ComesTo, NeedsRefresh, WithinLimits, ApplyTokens, SessionTTLFor, Acceptable, Next, TwoReplicas;
    var s0 := Stored(now, id, sess, expiresAt);
    var s1, f := FirstWantsToDelete(cfg, s0, id, true);
    s := SecondRefreshes(cfg, s0, s1, id, resp, true);
    t := Deletes(cfg, s, 1, id, f);
  }

  lemma Deletes(cfg: Config, s: State, p: Pid, id: Id, f: Flight) returns (t: State)
    requires Flies(s, p, id, f) && f.at.FailDelete?
    ensures t == Next(cfg, s, Run(p, Go)) && t.store == s.store - {id}
  {
    t := Next(cfg, s, Run(p, Go));
  }

  // ---- the same with a refresh lock ----

  lemma WaitingSteps(cfg: Config, s: State, id: Id, f: Flight)
    requires Waiting(f.at) && !f.at.ReadLocked? && Live(s, id) && (f.at.TryLock? ==> !LockFree(s, id))
    requires f.at.ReconsiderWaiting? ==> f.found.Some? && NeedsRefresh(cfg, f.found.value, s.now)
    ensures StepFlight(cfg, s, id, f, Go) ==
            (match f.at
             case TryLock => f.(at := AwaitLock)
             case AwaitLock => f.(at := ReadWaiting)
             case ReadWaiting => f.(found := Some(s.store[id].sess), at := ReconsiderWaiting)
             case ReconsiderWaiting => f.(at := CheckWait)
             case _ => f.(at := if s.now >= f.giveUp then FailRead(false) else TryLock), NoEffect)
  {
    hide NeedsRefresh, LockFree;
  }

  /** A refresh finds the lock taken, and once it has waited and read the session again it is
      about to look how long it has waited. */
  lemma WaitsForLock(cfg: Config, a: Answers, s: State, p: Pid, id: Id) returns (t: State, g: Flight)
    requires At(s, p, id, Load) && cfg.locker && !LockFree(s, id) && Live(s, id) && NobodyLeads(s, p, id)
    requires NeedsRefresh(cfg, s.store[id].sess, s.now) && WithinLimits(cfg, s.store[id].sess, s.now)
    ensures Alone(cfg, a, s, t, p) && Flies(t, p, id, g) && t.now == s.now && t.store == s.store && t.locks == s.locks
    ensures g.at.CheckWait? && g.current == s.store[id].sess && g.giveUp == s.now + cfg.lockWait
  {
    hide Next, Alone, NeedsRefresh, WithinLimits, StepFlight;
    var sess := s.store[id].sess;
    var s1 := RequestDecides(cfg, a, s, p, id);
    assert NobodyLeads(s1, p, id);
    HandlerMoves(cfg, a, s1, p, id, Decide(sess), Go);
    var s2, f := Next(cfg, s1, Run(p, Go)), Flight(ReadStored, s.now + REFRESH_TIMEOUT, s.now, false, sess, None, None);
    AloneOn(cfg, a, s, s1, s2, p);
    t, g := WaitsOn(cfg, a, s, s2, p, id, f);
  }

  lemma WaitsOn(cfg: Config, a: Answers, s0: State, s: State, p: Pid, id: Id, f: Flight) returns (t: State, g: Flight)
    requires Alone(cfg, a, s0, s, p) && Flies(s, p, id, f) && f.at.ReadStored?
    requires cfg.locker && !LockFree(s, id) && Live(s, id) && NeedsRefresh(cfg, s.store[id].sess, s.now)
    ensures Alone(cfg, a, s0, t, p) && Flies(t, p, id, g) && t.now == s.now && t.store == s.store && t.locks == s.locks
    ensures g.at.CheckWait? && g.current == s.store[id].sess && g.giveUp == s.now + cfg.lockWait
  {
    hide Alone, Flies, NeedsRefresh, StepFlight;
    var sess := s.store[id].sess;
    ReadSteps(cfg, s, id, f);
    var f1 := f.(found := Some(sess), current := sess, at := Reconsider);
    var s1 := Onwards(cfg, a, s0, s, p, id, f, Go, f1);
    ReconsiderSteps(cfg, s1, id, f1);
    var f2 := f1.(at := TryLock, giveUp := s.now + cfg.lockWait);
    var s2 := Onwards(cfg, a, s0, s1, p, id, f1, Go, f2);
    WaitingSteps(cfg, s2, id, f2);
    var f3 := f2.(at := AwaitLock);
    var s3 := Onwards(cfg, a, s0, s2, p, id, f2, Go, f3);
    WaitingSteps(cfg, s3, id, f3);
    var f4 := f3.(at := ReadWaiting);
    var s4 := Onwards(cfg, a, s0, s3, p, id, f3, Go, f4);
    WaitingSteps(cfg, s4, id, f4);
    var f5 := f4.(found := Some(sess), at := ReconsiderWaiting);
    var s5 := Onwards(cfg, a, s0, s4, p, id, f4, Go, f5);
    WaitingSteps(cfg, s5, id, f5);
    g := f5.(at := CheckWait);
    t := Onwards(cfg, a, s0, s5, p, id, f5, Go, g);
  }

  /** The second one holds the lock and is at the token endpoint; the first one waits for the lock. */
  lemma OneHoldsOneWaits(cfg: Config, s0: State, id: Id, resp: Response) returns (s: State, waiting: Flight, holding: Flight)
    requires cfg.locker && s0.handlers == map[] && s0.locks == map[] && id in s0.store && resp.identity.None?
    requires Fit(cfg, s0.now, s0.store[id].sess, s0.store[id].expiresAt)
    ensures ComesTo(cfg, s0, s, true) && s.now == s0.now && s.store == s0.store && s.handlers.Keys == {1, 2}
    ensures Flies(s, 1, id, waiting) && waiting.at.CheckWait? && waiting.current == s0.store[id].sess
    ensures waiting.giveUp == s0.now + cfg.lockWait
    ensures Flies(s, 2, id, holding) && holding.at.Exchanging? && holding.current == s0.store[id].sess
    ensures holding.deadline == s0.now + REFRESH_TIMEOUT
  {
    var s1 := BothStart(cfg, s0, Request(1, 1, id, true), Request(2, 2, id, true), true);
    var a := Answers(Tokens(resp), []);
    hide ComesTo, Alone, NeedsRefresh, WithinLimits;
    var s2;
    s2, holding := GetsToExchange(cfg, a, s1, 2, id);
    Interleave(cfg, a, s0, s1, s2, 2, 1, true);
    s, waiting := WaitsForLock(cfg, a, s2, 1, id);
    Interleave(cfg, a, s0, s2, s, 1, 2, true);
  }

  /** Time passes while nobody's exchange runs out of it. */
  lemma TimePasses(cfg: Config, s: State, later: Time, f: Flight) returns (t: State)
    requires s.now <= later && s.handlers.Keys == {1, 2} && later < f.deadline
    requires s.handlers[1].pc.Refresh? && !s.handlers[1].pc.flight.at.Exchanging? && s.handlers[2].pc == Refresh(f)
    ensures ComesTo(cfg, s, t, true) && t == s.(now := later)
  {
    OneEvent(cfg, s, Tick(later), true);
    hide ComesTo;
    t := Next(cfg, s, Tick(later));
  }

  lemma StillDue(cfg: Config, sess: Session, now: Time, later: Time)
    requires NeedsRefresh(cfg, sess, now) && now <= later
    ensures NeedsRefresh(cfg, sess, later)
  {
  }

  /** The wait for the lock runs out while the other replica is at the token endpoint. */
  lemma WaitRunsOut(cfg: Config, s: State, id: Id, f: Flight) returns (t: State, g: Flight)
    requires Flies(s, 1, id, f) && f.at.CheckWait? && s.now >= f.giveUp && s.handlers.Keys == {1, 2}
    requires Live(s, id) && s.store[id].sess == f.current && NeedsRefresh(cfg, f.current, s.now)
    requires s.now >= f.current.expiry + cfg.outageGrace
    ensures ComesTo(cfg, s, t, true) && Flies(t, 1, id, g) && g.at.FailDelete? && t.now == s.now && t.store == s.store
    ensures t.handlers.Keys == {1, 2} && t.handlers[2] == s.handlers[2]
  {
    hide StepFlight, Alone, NeedsRefresh, LockFree, ComesTo;
    var a := Answers(Unavailable, []);
    AloneNone(cfg, a, s, 1);
    WaitingSteps(cfg, s, id, f);
    var f1 := f.(at := FailRead(false));
    var s1 := Onwards(cfg, a, s, s, 1, id, f, Go, f1);
    t, g := WantsToDelete(cfg, a, s, s1, 1, id, f1);
    NoEvent(cfg, s, true);
    Interleave(cfg, a, s, s, t, 1, 2, true);
  }

  /** The exchange ends and its tokens are stored. */
  lemma HolderStores(cfg: Config, s: State, id: Id, f: Flight, resp: Response) returns (t: State)
    requires Flies(s, 2, id, f) && f.at.Exchanging? && Live(s, id) && s.store[id].sess == f.current && 1 in s.handlers
    requires Storable(cfg, s.now, f.current, resp) && resp.identity.None?
    ensures ComesTo(cfg, s, t, true) && t.now == s.now && Live(t, id) && t.store[id].sess == ApplyTokens(f.current, resp)
    ensures 1 in t.handlers && t.handlers[1] == s.handlers[1]
  {
    hide StepFlight, Alone, ComesTo, ApplyTokens, Storable;
    var a := Answers(Tokens(resp), []);
    var s1, f1 := GetsToStore(cfg, a, s, 2, id, f, resp);
    t := StoreMoves(cfg, a, s1, 2, id, f1);
    AloneOn(cfg, a, s, s1, t, 2);
    NoEvent(cfg, s, true);
    Interleave(cfg, a, s, s, t, 2, 1, true);
  }

  /** With a lock: one replica holds it and is at the token endpoint. The other one gives up waiting
      for it and is about to delete the session, past its grace. The first one stores its tokens,
      and the other one deletes the refreshed session; nothing was refused. */
  lemma RenewedIsDeletedUnderLock(cfg: Config, now: Time, id: Id, sess: Session, expiresAt: Time, resp: Response)
    returns (s: State, t: State)
    requires cfg.locker && 0 < cfg.lockWait < REFRESH_TIMEOUT && Fit(cfg, now, sess, expiresAt) && now + cfg.lockWait <= expiresAt
    requires now + cfg.lockWait >= sess.expiry + cfg.outageGrace && resp.identity.None?
    requires Storable(cfg, now + cfg.lockWait, sess, resp) && !NeedsRefresh(cfg, ApplyTokens(sess, resp), now + cfg.lockWait)
    ensures Init(Stored(now, id, sess, expiresAt)) && ComesTo(cfg, Stored(now, id, sess, expiresAt), s, true)
    ensures Live(s, id) && s.store[id].sess == ApplyTokens(sess, resp) && !NeedsRefresh(cfg, s.store[id].sess, s.now)
    ensures 1 in s.handlers && s.handlers[1].pc.Refresh? && s.handlers[1].pc.flight.at.FailDelete?
    ensures t == Next(cfg, s, Run(1, Go)) && id !in t.store
  {
    hide ComesTo, NeedsRefresh, WithinLimits, Storable, ApplyTokens, Next;
    var s0, later := Stored(now, id, sess, expiresAt), now + cfg.lockWait;
    var s1, f1, holding := OneHoldsOneWaits(cfg, s0, id, resp);
    var s2 := TimePasses(cfg, s1, later, holding);
    StillDue(cfg, sess, now, later);
    var s3, f3 := WaitRunsOut(cfg, s2, id, f1);
    s := HolderStores(cfg, s3, id, holding, resp);
    ComesOn(cfg, s0, s1, s2, true);
    ComesOn(cfg, s0, s2, s3, true);
    ComesOn(cfg, s0, s3, s, true);
    t := Deletes(cfg, s, 1, id, f3);
  }

  // ---- a session survives its deletion ----

  /** A deletion by provider session finds the session. The other replica refreshes it, and the
      provider names another provider session. The deletion then leaves the session alone. */
  lemma RenamedSurvives(cfg: Config, now: Time, id: Id, sess: Session, expiresAt: Time, resp: Response)
    returns (s: State, u: State)
    requires Fit(cfg, now, sess, expiresAt) && Storable(cfg, now, sess, resp)
    requires sess.sid != "" && ApplyTokens(sess, resp).sid != sess.sid
    ensures Init(Stored(now, id, sess, expiresAt)) && ComesTo(cfg, Stored(now, id, sess, expiresAt), s, false)
    ensures var target := BySid(sess.sid, "");
            && SessionDeletion.PcOf(s, 1) == Lookup(target) && id in LiveMatches(s, target)
            && SessionDeletion.PcOf(Next(cfg, s, Run(1, Ids([id]))), 1).Visit?
            && ComesTo(cfg, Next(cfg, s, Run(1, Ids([id]))), u, false)
            && SessionDeletion.PcOf(u, 1).Dropped?
            && Live(u, id) && u.store[id].sess == ApplyTokens(sess, resp)
  {
    hide ComesTo, NeedsRefresh, WithinLimits, ApplyTokens, SessionTTLFor, Acceptable, Next, FoundBy;
    var s0, target := Stored(now, id, sess, expiresAt), BySid(sess.sid, "");
    s := BothStart(cfg, s0, DeleteBy(1, 1, target), Request(2, 2, id, true), false);
    var s1 := LooksUp(cfg, s, id, target);
    hide LiveMatches, TwoReplicas;
    u := SecondRenames(cfg, s1, id, Progress(target, FoundBy(s, target), [id], map[], {}), resp);
  }

  lemma SecondRenames(cfg: Config, s: State, id: Id, w: Progress, resp: Response) returns (u: State)
    requires (cfg.locker ==> LockFree(s, id)) && TwoReplicas(s, id) && At(s, 1, "", Visit(w)) && w.rest == [id]
    requires Live(s, id) && Fit(cfg, s.now, s.store[id].sess, s.store[id].expiresAt) && Storable(cfg, s.now, s.store[id].sess, resp)
    requires w.target.BySid? && ApplyTokens(s.store[id].sess, resp).sid != w.target.sid
    ensures ComesTo(cfg, s, u, false) && SessionDeletion.PcOf(u, 1).Dropped?
    ensures Live(u, id) && u.store[id].sess == ApplyTokens(s.store[id].sess, resp)
  {
    hide ComesTo, Fit, Storable, ApplyTokens, TwoReplicas;
    NoEvent(cfg, s, false);
    var s1 := SecondRefreshes(cfg, s, s, id, resp, false);
    u := Spares(cfg, s1, "", w, id);
    ComesOn(cfg, s, s1, u, false);
  }

  lemma LooksUp(cfg: Config, s: State, id: Id, target: Target) returns (t: State)
    requires s.handlers.Keys == {1, 2} && At(s, 1, "", Lookup(target)) && WellFormed(target) && At(s, 2, id, Load)
    requires s.handlers[1].proc == 1 && s.handlers[2].proc == 2 && LiveMatches(s, target) <= {id}
    ensures t == Next(cfg, s, Run(1, Ids([id]))) && t.now == s.now && t.store == s.store && t.locks == s.locks && TwoReplicas(t, id)
    ensures At(t, 1, "", Visit(Progress(target, FoundBy(s, target), [id], map[], {})))
  {
    hide LiveMatches, FoundBy;
    t := Next(cfg, s, Run(1, Ids([id])));
  }

  lemma Spares(cfg: Config, s: State, own: Id, w: Progress, id: Id) returns (t: State)
    requires At(s, 1, own, Visit(w)) && w.rest == [id] && Live(s, id) && !Matches(w.target, s.store[id].sess)
    ensures ComesTo(cfg, s, t, false) && t.store == s.store && t.now == s.now && SessionDeletion.PcOf(t, 1).Dropped?
  {
    t := Next(cfg, s, Run(1, Go));
    OneEvent(cfg, s, Run(1, Go), false);
    hide ComesTo, Matches;
  }

  // ---- an older identity comes back ----

  /** The first one gets its tokens and is about to store them. */
  lemma FirstWantsToStore(cfg: Config, s0: State, id: Id, resp: Response) returns (s: State, f: Flight)
    requires !cfg.locker && s0.handlers == map[] && id in s0.store
    requires Fit(cfg, s0.now, s0.store[id].sess, s0.store[id].expiresAt) && Storable(cfg, s0.now, s0.store[id].sess, resp)
    ensures ComesTo(cfg, s0, s, false) && TwoReplicas(s, id) && s.now == s0.now && s.store == s0.store
    ensures var sess := s0.store[id].sess;
            && Flies(s, 1, id, f) && f.at.Store? && f.current == sess && f.at.job.ttl > 0
            && f.at.job.updated == ApplyTokens(sess, resp) && f.at.job.resp == resp
            && f.at.job.expected == sess.version && f.at.job.attempt == 0
  {
    hide ComesTo, Alone, NeedsRefresh, WithinLimits, ApplyTokens, SessionTTLFor, Acceptable;
    var s1 := BothStart(cfg, s0, Request(1, 1, id, true), Request(2, 2, id, true), false);
    var a := Answers(Tokens(resp), []);
    var s2, f2 := GetsToExchange(cfg, a, s1, 1, id);
    Interleave(cfg, a, s0, s1, s2, 1, 2, false);
    s, f := GetsToStore(cfg, a, s2, 1, id, f2, resp);
    Interleave(cfg, a, s0, s2, s, 1, 2, false);
  }

  lemma GetsToStore(cfg: Config, a: Answers, s: State, p: Pid, id: Id, f: Flight, resp: Response) returns (t: State, g: Flight)
    requires Flies(s, p, id, f) && f.at.Exchanging? && a.exchange == Tokens(resp) && Storable(cfg, s.now, f.current, resp)
    ensures Alone(cfg, a, s, t, p) && t.now == s.now && t.store == s.store
    ensures && Flies(t, p, id, g) && g.at.Store? && g.current == f.current && g.at.job.ttl > 0
            && g.at.job.updated == ApplyTokens(f.current, resp) && g.at.job.resp == resp
            && g.at.job.expected == f.current.version && g.at.job.attempt == 0
  {
    AppliedWithinLimits(cfg, f.current, resp, s.now);
    hide Alone, StepFlight, Flies, ApplyTokens, SessionTTLFor, Acceptable, WithinLimits;
    ExchangeSteps(cfg, s, id, f, resp);
    var f1 := f.(at := ComputeTtl(ApplyTokens(f.current, resp), resp));
    var s1 := FlightMoves(cfg, a, s, p, id, f, Tokens(resp), f1, Redeem(id, f.current.refresh, resp));
    TtlSteps(cfg, s1, id, f1);
    g := f1.(at := Store(Job(f1.at.updated, resp, SessionTTLFor(cfg, f1.at.updated, s1.now), s1.now, f1.current.version, 0)));
    t := Onwards(cfg, a, s, s1, p, id, f1, Go, g);
  }

  /** Both replicas redeem one refresh token that the provider does not rotate. The second one
      stores a new identity first, with tokens that are due again; the first one takes that for
      recorded activity and puts the old identity back. */
  lemma OldIdentityReturns(cfg: Config, now: Time, id: Id, sess: Session, expiresAt: Time, resp: Response, other: Response)
    returns (s: State, t: State)
    requires !cfg.locker && Fit(cfg, now, sess, expiresAt)
    requires Storable(cfg, now, sess, resp) && resp.identity.None?
    requires Storable(cfg, now, sess, other) && other.refresh == "" && NeedsRefresh(cfg, ApplyTokens(sess, other), now)
    requires ApplyTokens(sess, other).sid != sess.sid
    ensures Init(Stored(now, id, sess, expiresAt)) && ComesTo(cfg, Stored(now, id, sess, expiresAt), s, false)
    ensures ComesTo(cfg, s, t, false) && Live(s, id) && Live(t, id)
    ensures s.store[id].sess == ApplyTokens(sess, other)
    ensures t.store[id].sess == ApplyTokens(sess, resp).(version := sess.version + 2) && t.store[id].sess.sid == sess.sid
  {
    var s0 := Stored(now, id, sess, expiresAt);
    var latest := ApplyTokens(sess, other);
    AppliedParts(sess, resp, other);
    hide ComesTo, Alone, NeedsRefresh, WithinLimits, ApplyTokens, SessionTTLFor, Acceptable, Next, TwoReplicas, OnlyActivityChanged;
    var s1, f := FirstWantsToStore(cfg, s0, id, resp);
    s := SecondRefreshes(cfg, s0, s1, id, other, false);
    RebasedParts(f.at.job, latest);
    hide Rebase;
    t := MergeStores(cfg, Answers(Go, []), s, 1, id, f, latest);
    AloneComesTo(cfg, Answers(Go, []), s, t, 1);
  }

  lemma RebasedParts(job: Job, latest: Session)
    requires latest.lastActivity <= job.updated.lastActivity
    ensures Rebase(job, latest).updated == job.updated.(version := latest.version + 1)
  {
  }

  lemma AppliedParts(sess: Session, resp: Response, other: Response)
    requires other.refresh == "" && resp.identity.None?
    ensures var latest := ApplyTokens(sess, other);
            && OnlyActivityChanged(sess, latest) && latest.version == sess.version + 1
            && Later(sess, latest) && latest.lastActivity == sess.lastActivity
    ensures ApplyTokens(sess, resp).sid == sess.sid && ApplyTokens(sess, resp).lastActivity == sess.lastActivity
  {
  }

  lemma AloneComesTo(cfg: Config, a: Answers, s: State, t: State, p: Pid)
    requires Alone(cfg, a, s, t, p)
    ensures ComesTo(cfg, s, t, false)
  {
    hide Drive, ComesTo;
    var n: nat :| Drive(cfg, a, s, p, n) == t;
    DriveComesTo(cfg, a, s, p, n, false);
  }

  // ---- in numbers ----

  const EXAMPLE := Config(1000, 0, 0, true, 10, 0, 1, false)
  const SESSION := Session("u", "a", "r", "", 95, Claims("s1", [], 0, map[]), "s1", 0, [], 50, 50, map[], 0)
  const RENEWAL := Response("b", "", 500, None)
  const RENAMING := Response("c", "", 105, Some(Identity("t", "u", Claims("s2", [], 0, map[]))))

  const LOCKING := Config(100_000, 0, 0, true, 10, 0, 5_000, true)
  const LATE_RENEWAL := Response("b", "", 50_000, None)

  /** With a lock, and the default wait for it. */
  lemma LockedRaceExists() returns (deleted: State, gone: State)
    ensures var s0 := Stored(100, "id", SESSION, 50_000);
            && LOCKING.Valid() && Init(s0) && ComesTo(LOCKING, s0, deleted, true) && Live(deleted, "id")
            && !NeedsRefresh(LOCKING, deleted.store["id"].sess, deleted.now)
            && gone == Next(LOCKING, deleted, Run(1, Go)) && "id" !in gone.store
  {
    assert Fit(LOCKING, 100, SESSION, 50_000) && Storable(LOCKING, 5_100, SESSION, LATE_RENEWAL);
    assert !NeedsRefresh(LOCKING, ApplyTokens(SESSION, LATE_RENEWAL), 5_100) && LATE_RENEWAL.identity.None?;
    assert LOCKING.Valid() && LOCKING.locker && LOCKING.lockWait == 5_000 && SESSION.expiry + LOCKING.outageGrace == 95;
    hide Fit, Storable, NeedsRefresh, ApplyTokens, ComesTo, Next, Config.Valid, Init, Live, LOCKING, SESSION, LATE_RENEWAL;
    deleted, gone := RenewedIsDeletedUnderLock(LOCKING, 100, "id", SESSION, 50_000, LATE_RENEWAL);
  }

  lemma ExampleFits()
    ensures EXAMPLE.Valid() && !EXAMPLE.locker && Fit(EXAMPLE, 100, SESSION, 1000)
    ensures 100 >= SESSION.expiry + EXAMPLE.outageGrace
    ensures Storable(EXAMPLE, 100, SESSION, RENEWAL) && Storable(EXAMPLE, 100, SESSION, RENAMING)
    ensures !NeedsRefresh(EXAMPLE, ApplyTokens(SESSION, RENEWAL), 100) && NeedsRefresh(EXAMPLE, ApplyTokens(SESSION, RENAMING), 100)
    ensures RENEWAL.identity.None? && RENAMING.refresh == ""
    ensures SESSION.sid == "s1" && ApplyTokens(SESSION, RENAMING).sid == "s2"
  {
  }

  /** With options a client accepts, each of the three runs exists. */
  lemma RacesExist() returns (deleted: State, gone: State, found: State, survived: State, renamed: State, undone: State)
    ensures var s0 := Stored(100, "id", SESSION, 1000);
            && EXAMPLE.Valid() && Init(s0)
            && ComesTo(EXAMPLE, s0, deleted, true) && Live(deleted, "id")
            && !NeedsRefresh(EXAMPLE, deleted.store["id"].sess, deleted.now)
            && gone == Next(EXAMPLE, deleted, Run(1, Go)) && "id" !in gone.store
            && ComesTo(EXAMPLE, s0, found, false) && "id" in LiveMatches(found, BySid("s1", ""))
            && ComesTo(EXAMPLE, Next(EXAMPLE, found, Run(1, Ids(["id"]))), survived, false)
            && SessionDeletion.PcOf(survived, 1).Dropped? && Live(survived, "id")
            && ComesTo(EXAMPLE, s0, renamed, false) && Live(renamed, "id") && renamed.store["id"].sess.sid == "s2"
            && ComesTo(EXAMPLE, renamed, undone, false) && Live(undone, "id") && undone.store["id"].sess.sid == "s1"
  {
    ExampleFits();
    hide Fit, Storable, NeedsRefresh, ApplyTokens, ComesTo, Next, LiveMatches, Config.Valid, Init, Live;
    hide EXAMPLE, SESSION, RENEWAL, RENAMING;
    deleted, gone := RenewedIsDeleted(EXAMPLE, 100, "id", SESSION, 1000, RENEWAL);
    found, survived := RenamedSurvives(EXAMPLE, 100, "id", SESSION, 1000, RENAMING);
    renamed, undone := OldIdentityReturns(EXAMPLE, 100, "id", SESSION, 1000, RENEWAL, RENAMING);
  }
}
