/** What holds over every run of the session protocol: any number of handlers and
    replicas, any interleaving, any outcome of the provider, any store fault. */
module SessionRuns {
  import opened Basics
  import opened Sessions
  import opened SessionProtocol
  import opened SessionInvariant

  // ---- runs ----

  lemma {:induction false} ExecKeepsInv(cfg: Config, s: State, events: seq<Event>)
    requires Inv(cfg, s)
    ensures Inv(cfg, Exec(cfg, s, events)) && AllGrow(s, Exec(cfg, s, events))
    decreases |events|
  {
    hide Inv, Next, AllGrow;
    if events == [] {
      NoEventGrows(s);
    } else {
      NextKeepsInv(cfg, s, events[0]);
      ExecKeepsInv(cfg, Next(cfg, s, events[0]), events[1..]);
      GrowthIsTransitive(s, Next(cfg, s, events[0]), Exec(cfg, s, events));
    }
  }

  lemma GrowthIsTransitive(s: State, t: State, u: State)
    requires AllGrow(s, t) && AllGrow(t, u)
    ensures AllGrow(s, u)
  {
    forall id ensures Grows(ViewOf(s, id), ViewOf(u, id)) {
      assert Grows(ViewOf(s, id), ViewOf(t, id)) && Grows(ViewOf(t, id), ViewOf(u, id));
    }
  }

  // ---- no resurrection ----

  lemma EffectKeepsDead(s: State, p: Pid, e: Effect, id: Id)
    requires Dead(s, id) && (e.Create? ==> e.id !in s.history)
    ensures Dead(Apply(s, p, e), id)
  {
  }

  lemma RunKeepsDead(cfg: Config, s: State, p: Pid, ch: Choice, id: Id)
    requires FreshInv(s) && p in s.handlers && Dead(s, id)
    ensures Dead(RunHandler(cfg, s, p, ch), id)
  {
    hide StepHandler, Apply;
    var h := s.handlers[p];
    StepIsLocal(cfg, s, h, ch);
    assert h.pc.Callback? ==> SigningIn(s, p);
    EffectKeepsDead(s, p, StepHandler(cfg, s, h, ch).1, id);
  }

  lemma NextKeepsDead(cfg: Config, s: State, e: Event, id: Id)
    requires FreshInv(s) && Dead(s, id)
    ensures Dead(Next(cfg, s, e), id)
  {
    hide SessionTTLFor, NewSession, RunHandler;
    if e.Run? && Enabled(s, e) { RunKeepsDead(cfg, s, e.pid, e.choice, id); }
  }

  lemma {:induction false} ExecKeepsDead(cfg: Config, s: State, events: seq<Event>, id: Id)
    requires Inv(cfg, s) && Dead(s, id)
    ensures Dead(Exec(cfg, s, events), id)
    decreases |events|
  {
    hide Next, Dead, FreshInv, StoreInv, HandlerInv, JoinInv;
    if events != [] {
      NextKeepsInv(cfg, s, events[0]);
      NextKeepsDead(cfg, s, events[0], id);
      ExecKeepsDead(cfg, Next(cfg, s, events[0]), events[1..], id);
    }
  }

  /** A session that could be read once and cannot be read later, deleted or
      expired, is never read again. */
  lemma NoResurrection(cfg: Config, s0: State, before: seq<Event>, between: seq<Event>, after: seq<Event>, id: Id)
    requires Init(s0)
    ensures var s1 := Exec(cfg, s0, before);
            var s2 := Exec(cfg, s1, between);
            Live(s1, id) && !Live(s2, id) ==> !Live(Exec(cfg, s2, after), id)
  {
    var s1 := Exec(cfg, s0, before);
    var s2 := Exec(cfg, s1, between);
    InitInv(cfg, s0);
    ExecKeepsInv(cfg, s0, before);
    ExecKeepsInv(cfg, s1, between);
    if Live(s1, id) && !Live(s2, id) {
      assert IdInv(s1, id) && Grows(ViewOf(s1, id), ViewOf(s2, id));
      ExecKeepsDead(cfg, s2, after, id);
    }
  }

  // ---- the version chain ----

  /** One event leaves a readable session alone or puts the next version in its
      place: recorded activity, or tokens bought with the refresh token it held. */
  lemma EachWriteLinks(cfg: Config, s: State, e: Event, id: Id)
    requires Inv(cfg, s) && Live(s, id) && Live(Next(cfg, s, e), id)
    ensures var a, b := s.store[id].sess, Next(cfg, s, e).store[id].sess;
            a == b || exists how :: Link(a, Write(b, how))
                                    && (how.Refreshed? ==> (id, how.from.refresh, how.resp) in s.redeemed && Recorded(Hist(s, id), how.from))
  {
    hide StepHandler, Chain, HandlerInv, Link, SessionTTLFor, NewSession;
    if e.Run? && Enabled(s, e) {
      var h := s.handlers[e.pid];
      var (pc, f) := StepHandler(cfg, s, h, e.choice);
      PcStep(cfg, s, e.pid, e.choice);
      assert IdInv(s, id);
      if f.Update? && f.id == id && CanUpdate(s, id, f.expected) {
        assert Link(s.store[id].sess, Write(f.sess, f.how));
      }
    }
  }

  lemma PrefixIsEarlier(hs: seq<Write>, more: seq<Write>)
    requires Chain(more) && hs != [] && hs <= more
    ensures Later(Latest(hs), Latest(more))
    ensures Latest(hs).version == Latest(more).version ==> Latest(hs) == Latest(more)
  {
    assert Later(more[|hs| - 1].sess, more[|more| - 1].sess);
  }

  /** A version is written once: whoever reads it, whenever, reads the same. What a
      sign-in fixed stays, and recorded activity is never lost. */
  lemma OneWriterPerVersion(cfg: Config, s0: State, before: seq<Event>, after: seq<Event>, id: Id)
    requires Init(s0)
    ensures var s := Exec(cfg, s0, before);
            var t := Exec(cfg, s, after);
            Live(s, id) && Live(t, id) ==>
              var a, b := s.store[id].sess, t.store[id].sess;
              && (a.version == b.version ==> a == b)
              && a.version <= b.version && a.lastActivity <= b.lastActivity
              && a.userId == b.userId && a.createdAt == b.createdAt && a.attributes == b.attributes
  {
    hide Init, Chain;
    var s := Exec(cfg, s0, before);
    var t := Exec(cfg, s, after);
    InitInv(cfg, s0);
    ExecKeepsInv(cfg, s0, before);
    ExecKeepsInv(cfg, s, after);
    if Live(s, id) && Live(t, id) {
      assert IdInv(s, id) && IdInv(t, id) && Grows(ViewOf(s, id), ViewOf(t, id));
      PrefixIsEarlier(Hist(s, id), Hist(t, id));
    }
  }

  /** The history is what the store has held: every version in it was in the store
      after some prefix of the run. */
  lemma {:induction false} HistoryWasStored(cfg: Config, s0: State, events: seq<Event>, id: Id, k: nat)
    requires Init(s0) && k < |Hist(Exec(cfg, s0, events), id)|
    ensures exists n | 0 <= n <= |events| :: Holds(Exec(cfg, s0, events[..n]), id, Hist(Exec(cfg, s0, events), id)[k].sess)
    decreases |events|
  {
    hide Next;
    var s := Exec(cfg, s0, events);
    if events == [] {
      assert Holds(Exec(cfg, s0, events[..0]), id, Hist(s, id)[k].sess);
    } else {
      var last := |events| - 1;
      ExecSplits(cfg, s0, events[..last], events[last..]);
      assert events[..last] + events[last..] == events;
      var r := Exec(cfg, s0, events[..last]);
      InitInv(cfg, s0);
      ExecKeepsInv(cfg, s0, events[..last]);
      NextAppends(cfg, r, events[last], id);
      if k < |Hist(r, id)| {
        HistoryWasStored(cfg, s0, events[..last], id, k);
        var n :| 0 <= n <= last && Holds(Exec(cfg, s0, events[..last][..n]), id, Hist(r, id)[k].sess);
        assert events[..last][..n] == events[..n];
      } else {
        assert events[..|events|] == events;
      }
    }
  }

  predicate Holds(s: State, id: Id, sess: Session) {
    id in s.store && s.store[id].sess == sess
  }

  lemma {:induction false} ExecSplits(cfg: Config, s: State, a: seq<Event>, b: seq<Event>)
    ensures Exec(cfg, s, a + b) == Exec(cfg, Exec(cfg, s, a), b)
    decreases |a|
  {
    hide Next;
    if a == [] {
      assert a + b == b;
    } else {
      assert (a + b)[1..] == a[1..] + b;
      ExecSplits(cfg, Next(cfg, s, a[0]), a[1..], b);
    }
  }

  /** An event adds at most one version, which is then the stored one. */
  lemma NextAppends(cfg: Config, s: State, e: Event, id: Id)
    requires Inv(cfg, s)
    ensures var hs, more := Hist(s, id), Hist(Next(cfg, s, e), id);
            hs == more || exists w :: more == hs + [w] && Holds(Next(cfg, s, e), id, w.sess)
  {
    hide StepHandler, Inv, SessionTTLFor, NewSession, Apply;
    if e.Run? && Enabled(s, e) {
      EffectAppends(s, e.pid, StepHandler(cfg, s, s.handlers[e.pid], e.choice).1, id);
    }
  }

  lemma EffectAppends(s: State, p: Pid, e: Effect, id: Id)
    ensures var hs, more := Hist(s, id), Hist(Apply(s, p, e), id);
            hs == more || exists w :: more == hs + [w] && Holds(Apply(s, p, e), id, w.sess)
  {
    var t := Apply(s, p, e);
    if Hist(t, id) != Hist(s, id) {
      assert Hist(t, id) == Hist(s, id) + [Hist(t, id)[|Hist(s, id)|]];
    }
  }

  /** In every run, a response whose ID token names a user was only ever stored in a session of that
      user. */
  lemma IdentityIsOwn(cfg: Config, s0: State, events: seq<Event>, id: Id, k: nat)
    requires Init(s0) && k < |Hist(Exec(cfg, s0, events), id)|
    ensures var w := Hist(Exec(cfg, s0, events), id)[k];
            w.how.Refreshed? && w.how.resp.identity.Some? ==> w.how.resp.identity.value.subject == w.sess.userId
  {
    hide Init, Exec, HandlerInv, FreshInv;
    InitInv(cfg, s0);
    ExecKeepsInv(cfg, s0, events);
    assert IdInv(Exec(cfg, s0, events), id);
    var w := Hist(Exec(cfg, s0, events), id)[k];
    if w.how.Refreshed? && w.how.resp.identity.Some? { OwnIdentity(Hist(Exec(cfg, s0, events), id), k); }
  }

  lemma OwnIdentity(hs: seq<Write>, k: nat)
    requires Chain(hs) && k < |hs| && hs[k].how.Refreshed? && hs[k].how.resp.identity.Some?
    ensures hs[k].how.resp.identity.value.subject == hs[k].sess.userId
  {
    if k == 0 {
      assert Recorded(hs, hs[0].how.from);
    } else {
      assert Link(hs[k - 1].sess, hs[k]);
    }
  }

  // ---- what a request is served ----

  /** The n-th event is the step in which p, still at its first read, reads r. */
  ghost predicate ReadAt(cfg: Config, s0: State, events: seq<Event>, n: int, p: Pid, r: Session) {
    && 0 <= n < |events| && events[n].Run? && events[n].pid == p
    && var s := Exec(cfg, s0, events[..n]);
    && p in s.handlers && s.handlers[p].pc.Load?
    && Live(s, s.handlers[p].id) && s.store[s.handlers[p].id].sess == r
  }

  /** The session p read first was within both limits when p started. */
  ghost predicate VettedAt(cfg: Config, s0: State, events: seq<Event>, n: int, p: Pid, r: Session, startedAt: Time) {
    && ReadAt(cfg, s0, events, n, p, r)
    && Exec(cfg, s0, events[..n]).handlers[p].startedAt == startedAt && !LifetimeExceeded(cfg, r, startedAt)
  }

  /** Points that a request reaches only past its lifetime check. */
  predicate PastCheck(pc: Pc) {
    pc.Decide? || pc.Join? || pc.Refresh? || pc.Record? || pc.WriteActivity? || (pc.Done? && pc.result.Some?)
  }

  /** What a request checks or has checked, it read. */
  ghost predicate CheckedWhatItRead(cfg: Config, s0: State, events: seq<Event>, p: Pid, h: Handler) {
    && (h.pc.Check? ==> exists n :: ReadAt(cfg, s0, events, n, p, h.pc.sess)
                                    && Exec(cfg, s0, events[..n]).handlers[p].startedAt == h.startedAt)
    && (PastCheck(h.pc) ==> exists n, r :: VettedAt(cfg, s0, events, n, p, r, h.startedAt))
  }

  lemma ReadStays(cfg: Config, s0: State, events: seq<Event>, n: int, p: Pid, r: Session)
    requires events != [] && ReadAt(cfg, s0, events[..|events| - 1], n, p, r)
    ensures ReadAt(cfg, s0, events, n, p, r)
    ensures events[..|events| - 1][..n] == events[..n]
  {
    hide Exec;
    assert events[..|events| - 1][..n] == events[..n];
  }

  /** How a request gets to its lifetime check and past it. */
  lemma StepChecks(cfg: Config, s: State, h: Handler, ch: Choice)
    ensures var pc := StepHandler(cfg, s, h, ch).0;
            && (pc.Check? ==> h.pc.Load? && Live(s, h.id) && s.store[h.id].sess == pc.sess)
            && (PastCheck(pc) ==> PastCheck(h.pc) || (h.pc.Check? && !LifetimeExceeded(cfg, h.pc.sess, s.now)))
  {
    hide StepFlight, LifetimeExceeded, NeedsRefresh, SessionTTLFor;
  }

  lemma NextChecks(cfg: Config, s: State, e: Event, p: Pid)
    requires p in Next(cfg, s, e).handlers
    ensures var pc := Next(cfg, s, e).handlers[p].pc;
            pc.Check? || PastCheck(pc) ==>
              && p in s.handlers
              && Next(cfg, s, e).handlers[p].startedAt == s.handlers[p].startedAt
              && (s.handlers[p].pc == pc || (e.Run? && e.pid == p && pc == StepHandler(cfg, s, s.handlers[p], e.choice).0))
  {
    hide StepHandler, Apply, SessionTTLFor, NewSession;
    if e.Run? && Enabled(s, e) { ApplyKeepsHandlers(s, e.pid, StepHandler(cfg, s, s.handlers[e.pid], e.choice).1); }
  }

  lemma CheckedEarlier(cfg: Config, sess: Session, startedAt: Time, now: Time)
    requires startedAt <= now && !LifetimeExceeded(cfg, sess, now)
    ensures !LifetimeExceeded(cfg, sess, startedAt)
  {
  }

  /** Where the session comes from that a request checked. */
  lemma {:induction false} RequestRead(cfg: Config, s0: State, events: seq<Event>, p: Pid)
    requires Init(s0)
    ensures var s := Exec(cfg, s0, events);
            p in s.handlers ==> CheckedWhatItRead(cfg, s0, events, p, s.handlers[p])
    decreases |events|
  {
    hide Next, CheckedWhatItRead;
    if events != [] {
      var last := |events| - 1;
      var most, e := events[..last], events[last];
      ExecSplits(cfg, s0, most, [e]);
      assert most + [e] == events && [e][1..] == [];
      var s := Exec(cfg, s0, most);
      RequestRead(cfg, s0, most, p);
      if p in Next(cfg, s, e).handlers { RequestReadStep(cfg, s0, events, p); }
    }
  }

  lemma RequestReadStep(cfg: Config, s0: State, events: seq<Event>, p: Pid)
    requires Init(s0) && events != []
    requires var most, e := events[..|events| - 1], events[|events| - 1];
             var s := Exec(cfg, s0, most);
             && p in Next(cfg, s, e).handlers
             && (p in s.handlers ==> CheckedWhatItRead(cfg, s0, most, p, s.handlers[p]))
    ensures var h := Next(cfg, Exec(cfg, s0, events[..|events| - 1]), events[|events| - 1]).handlers[p];
            CheckedWhatItRead(cfg, s0, events, p, h)
  {
    hide Init, Next, LifetimeExceeded, StepHandler, Exec, FreshInv, StoreInv, JoinInv, PcInv;
    var last := |events| - 1;
    var most, e := events[..last], events[last];
    var s := Exec(cfg, s0, most);
    var pc := Next(cfg, s, e).handlers[p].pc;
    NextChecks(cfg, s, e, p);
    if pc.Check? || PastCheck(pc) {
      var h := s.handlers[p];
      if h.pc.Check? {
        var n :| ReadAt(cfg, s0, most, n, p, h.pc.sess) && Exec(cfg, s0, most[..n]).handlers[p].startedAt == h.startedAt;
        ReadStays(cfg, s0, events, n, p, h.pc.sess);
      }
      if PastCheck(h.pc) {
        var n, r :| VettedAt(cfg, s0, most, n, p, r, h.startedAt);
        ReadStays(cfg, s0, events, n, p, r);
        assert VettedAt(cfg, s0, events, n, p, r, h.startedAt);
      }
      if h.pc != pc {
        StepChecks(cfg, s, h, e.choice);
        if pc.Check? {
          assert ReadAt(cfg, s0, events, last, p, pc.sess);
        } else if !PastCheck(h.pc) {
          InitInv(cfg, s0);
          ExecKeepsInv(cfg, s0, most);
          assert HandlerInv(cfg, s, h);
          CheckedEarlier(cfg, h.pc.sess, h.startedAt, s.now);
          var n :| ReadAt(cfg, s0, events, n, p, h.pc.sess) && Exec(cfg, s0, events[..n]).handlers[p].startedAt == h.startedAt;
          assert VettedAt(cfg, s0, events, n, p, h.pc.sess, h.startedAt);
        }
      }
    }
  }

  /** A request is served only what was stored, and only if neither limit had been reached when it
      started: not the absolute lifetime counted from the sign-in, and not the idle timeout
      counted from the activity that was recorded when it first read its session, before it
      could record any of its own. */
  lemma ServedWithinLimits(cfg: Config, s0: State, events: seq<Event>, p: Pid)
    requires Init(s0)
    ensures var s := Exec(cfg, s0, events);
            p in s.handlers && s.handlers[p].pc.Done? && s.handlers[p].pc.result.Some? ==>
              var h, v := s.handlers[p], s.handlers[p].pc.result.value;
              && Recorded(Hist(s, h.id), v)
              && (cfg.absoluteLifetime > 0 ==> h.startedAt < v.createdAt + cfg.absoluteLifetime)
              && exists n, r :: ReadAt(cfg, s0, events, n, p, r)
                                && (cfg.absoluteLifetime > 0 ==> h.startedAt < r.createdAt + cfg.absoluteLifetime)
                                && (cfg.idleTimeout > 0 ==> h.startedAt < LastActivity(r) + cfg.idleTimeout)
  {
    hide Init, Chain, ReadAt, Exec;
    var s := Exec(cfg, s0, events);
    InitInv(cfg, s0);
    ExecKeepsInv(cfg, s0, events);
    if p in s.handlers && s.handlers[p].pc.Done? && s.handlers[p].pc.result.Some? {
      var h := s.handlers[p];
      var hs := Hist(s, h.id);
      assert HandlerInv(cfg, s, h) && IdInv(s, h.id);
      LatestRecorded(hs);
      SameSignIn(hs, h.pc.result.value.version, Latest(hs).version);
      RequestRead(cfg, s0, events, p);
      var n, r :| VettedAt(cfg, s0, events, n, p, r, h.startedAt);
    }
  }

  /** A stored session outlives a limit by no more than the time that passed between
      computing its TTL and writing it. */
  lemma ExpiryWithinCaps(cfg: Config, s0: State, events: seq<Event>, id: Id)
    requires Init(s0)
    ensures var s := Exec(cfg, s0, events);
            id in s.store && s.store[id].stamp.Stamp? ==>
              var e, delay := s.store[id], s.store[id].stamp.writtenAt - s.store[id].stamp.computedAt;
              && 0 <= delay
              && e.expiresAt <= e.stamp.writtenAt + cfg.sessionTTL
              && (cfg.absoluteLifetime > 0 ==> e.expiresAt <= e.sess.createdAt + cfg.absoluteLifetime + delay)
              && (cfg.idleTimeout > 0 ==> e.expiresAt <= LastActivity(e.sess) + cfg.idleTimeout + delay)
  {
    hide Init, IdInv, HandlerInv, FreshInv;
    InitInv(cfg, s0);
    ExecKeepsInv(cfg, s0, events);
  }

  /** The merge loop tries at most three updates, and each one writes the tokens that
      the refresh token of the session it replaces was redeemed for. */
  lemma MergeIsBounded(cfg: Config, s0: State, events: seq<Event>, p: Pid)
    requires Init(s0)
    ensures var s := Exec(cfg, s0, events);
            p in s.handlers && s.handlers[p].pc.Refresh? && s.handlers[p].pc.flight.at.Store? ==>
              var job, id := s.handlers[p].pc.flight.at.job, s.handlers[p].id;
              && job.attempt < MAX_ACTIVITY_MERGE_ATTEMPTS
              && (CanUpdate(s, id, job.expected) ==>
                    (id, s.store[id].sess.refresh, job.resp) in s.redeemed && job.updated.access == job.resp.access)
  {
    hide Init, Chain;
    var s := Exec(cfg, s0, events);
    InitInv(cfg, s0);
    ExecKeepsInv(cfg, s0, events);
    if p in s.handlers && s.handlers[p].pc.Refresh? && s.handlers[p].pc.flight.at.Store? {
      var h := s.handlers[p];
      assert HandlerInv(cfg, s, h) && IdInv(s, h.id);
      var job := h.pc.flight.at.job;
      if CanUpdate(s, h.id, job.expected) { UpdatableIsLatest(s, h.id, job.expected); }
    }
  }

  /** The compare-and-sets a request can still make with refreshed tokens. */
  function AttemptsLeft(pc: Pc): int {
    match pc
    case Load | Check(_) | Decide(_) => 3
    case Refresh(f) => AttemptsLeftAt(f.at)
    case _ => 0
  }

  function AttemptsLeftAt(at: Point): int {
    match at
    case Store(job) => 3 - job.attempt
    case ReadAfterLoss(job) => 2 - job.attempt
    case Merge(job) => 2 - job.attempt
    case EndLifetime | FailRead(_) | FailDecide(_) | FailDelete | Release | ReleaseFailing | Finished => 0
    case _ => 3
  }

  predicate AtStore(pc: Pc) { pc.Refresh? && pc.flight.at.Store? }

  predicate EnoughLeft(pc: Pc) { AttemptsLeft(pc) >= if AtStore(pc) then 1 else 0 }

  /** From one point to the next. */
  predicate Spends(at: Point, next: Point) {
    && AttemptsLeftAt(next) >= (if next.Store? then 1 else 0)
    && AttemptsLeftAt(next) + (if at.Store? then 1 else 0) <= AttemptsLeftAt(at)
  }

  lemma LockSpends(cfg: Config, s: State, id: Id, f: Flight, ch: Choice)
    requires Waiting(f.at)
    ensures Spends(f.at, StepLock(cfg, s, id, f, ch).0.at)
  {
    hide NeedsRefresh, Read;
  }

  lemma StoreSpends(cfg: Config, s: State, id: Id, f: Flight, ch: Choice)
    requires Storing(f.at) && EnoughLeft(Refresh(f))
    ensures Spends(f.at, StepStore(cfg, s, id, f, ch).0.at)
  {
    hide NeedsRefresh, SessionTTLFor, OnlyActivityChanged, Read;
  }

  lemma MainSpends(cfg: Config, s: State, id: Id, f: Flight, ch: Choice)
    requires !Waiting(f.at) && !Storing(f.at) && !Failing(f.at) && !f.at.Exchanging?
    ensures Spends(f.at, StepMain(cfg, s, id, f, ch).0.at)
  {
    hide NeedsRefresh, Read;
  }

  lemma FailSpends(cfg: Config, s: State, id: Id, f: Flight, ch: Choice)
    requires Failing(f.at)
    ensures Spends(f.at, StepFail(cfg, s, id, f, ch).0.at)
  {
    hide NeedsRefresh, Read;
  }

  lemma ExchangeSpends(id: Id, f: Flight, ch: Choice)
    requires f.at.Exchanging?
    ensures Spends(f.at, StepExchange(id, f, ch).0.at)
  {
    hide ApplyTokens, Acceptable;
  }

  lemma FlightSpends(cfg: Config, s: State, id: Id, f: Flight, ch: Choice)
    requires EnoughLeft(Refresh(f))
    ensures Spends(f.at, StepFlight(cfg, s, id, f, ch).0.at)
  {
    hide StepLock, StepStore, StepMain, StepFail, StepExchange, Spends, EnoughLeft;
    if Waiting(f.at) {
      LockSpends(cfg, s, id, f, ch);
    } else if Storing(f.at) {
      StoreSpends(cfg, s, id, f, ch);
    } else if Failing(f.at) {
      FailSpends(cfg, s, id, f, ch);
    } else if f.at.Exchanging? {
      ExchangeSpends(id, f, ch);
    } else {
      MainSpends(cfg, s, id, f, ch);
    }
  }

  lemma StepSpends(cfg: Config, s: State, h: Handler, ch: Choice)
    requires EnoughLeft(h.pc)
    ensures var pc := StepHandler(cfg, s, h, ch).0;
            EnoughLeft(pc) && AttemptsLeft(pc) + (if AtStore(h.pc) then 1 else 0) <= AttemptsLeft(h.pc)
  {
    hide StepFlight, StepRequest, StepActivity, StepDeletion, AttemptsLeftAt;
    if h.pc.Refresh? && !h.pc.flight.at.Finished? {
      FlightSpends(cfg, s, h.id, h.pc.flight, ch);
    } else if Entering(h.pc) {
      EnteringSpends(cfg, s, h, ch);
    } else if h.pc.Record? || h.pc.WriteActivity? {
      PastRecord(cfg, s, h, ch);
    } else if h.pc.Lookup? || h.pc.Visit? || h.pc.Drop? {
      DeletionIsQuiet(s, h.pc, ch);
    } else if h.pc.Refresh? {
      assert AttemptsLeftAt(Finished) == 0 by { NothingLeft(); }
    }
  }

  lemma NothingLeft()
    ensures AttemptsLeftAt(Finished) == 0
  {
  }

  lemma EnteringSpends(cfg: Config, s: State, h: Handler, ch: Choice)
    requires Entering(h.pc)
    ensures var pc := StepRequest(cfg, s, h, ch).0; EnoughLeft(pc) && AttemptsLeft(pc) <= AttemptsLeft(h.pc)
  {
    hide NeedsRefresh, LifetimeExceeded, Leads;
  }

  /** How often p tries to store refreshed tokens. */
  function Attempts(cfg: Config, s: State, events: seq<Event>, p: Pid): nat
    decreases |events|
  {
    if events == [] then 0
    else (if events[0].Run? && events[0].pid == p && p in s.handlers && AtStore(s.handlers[p].pc) then 1 else 0)
         + Attempts(cfg, Next(cfg, s, events[0]), events[1..], p)
  }

  lemma NextSpends(cfg: Config, s: State, e: Event, p: Pid)
    requires p in s.handlers ==> EnoughLeft(s.handlers[p].pc)
    ensures var t := Next(cfg, s, e);
            p in t.handlers ==>
              && EnoughLeft(t.handlers[p].pc)
              && (p !in s.handlers ==> AttemptsLeft(t.handlers[p].pc) <= 3)
              && (p in s.handlers ==>
                    AttemptsLeft(t.handlers[p].pc) + (if e.Run? && e.pid == p && AtStore(s.handlers[p].pc) then 1 else 0)
                    <= AttemptsLeft(s.handlers[p].pc))
    ensures p in s.handlers ==> p in Next(cfg, s, e).handlers
  {
    hide StepHandler, Apply, SessionTTLFor, NewSession;
    if e.Run? && Enabled(s, e) {
      ApplyKeepsHandlers(s, e.pid, StepHandler(cfg, s, s.handlers[e.pid], e.choice).1);
      if e.pid == p { StepSpends(cfg, s, s.handlers[p], e.choice); }
    }
  }

  lemma {:induction false} AttemptsAtMost(cfg: Config, s: State, events: seq<Event>, p: Pid)
    requires p in s.handlers ==> EnoughLeft(s.handlers[p].pc)
    ensures Attempts(cfg, s, events, p) <= if p in s.handlers then AttemptsLeft(s.handlers[p].pc) else 3
    decreases |events|
  {
    hide Next, AttemptsLeft;
    if events == [] {
    } else {
      NextSpends(cfg, s, events[0], p);
      AttemptsAtMost(cfg, Next(cfg, s, events[0]), events[1..], p);
    }
  }

  /** In every run a request tries at most three times to store refreshed tokens, however often it
      loses its race. */
  lemma AttemptsAreBounded(cfg: Config, s0: State, events: seq<Event>, p: Pid)
    requires Init(s0)
    ensures Attempts(cfg, s0, events, p) <= 3
  {
    hide Attempts, Next;
    AttemptsAtMost(cfg, s0, events, p);
  }

  // ---- how long a session can be read ----

  /** The event writes or removes the session, or tries to. */
  predicate Touches(cfg: Config, s: State, e: Event, id: Id) {
    e.Run? && Enabled(s, e) &&
    var f := StepHandler(cfg, s, s.handlers[e.pid], e.choice).1;
    (f.Remove? || f.Update?) && f.id == id
  }

  predicate Untouched(cfg: Config, s: State, events: seq<Event>, id: Id)
    decreases |events|
  {
    events == [] || (!Touches(cfg, s, events[0], id) && Untouched(cfg, Next(cfg, s, events[0]), events[1..], id))
  }

  lemma NextKeepsEntry(cfg: Config, s: State, e: Event, id: Id)
    requires Inv(cfg, s) && Live(s, id) && !Touches(cfg, s, e, id)
    ensures id in Next(cfg, s, e).store && Next(cfg, s, e).store[id] == s.store[id] && s.now <= Next(cfg, s, e).now
  {
    hide StepHandler, HandlerInv, FreshInv, PcInv, Chain, SessionTTLFor, NewSession;
    if e.Run? && Enabled(s, e) {
      PcStep(cfg, s, e.pid, e.choice);
      assert IdInv(s, id);
    }
  }

  lemma {:induction false} ExecKeepsEntry(cfg: Config, s: State, events: seq<Event>, id: Id)
    requires Inv(cfg, s) && Live(s, id) && Untouched(cfg, s, events, id)
    ensures var t := Exec(cfg, s, events); s.now <= t.now && (t.now <= s.store[id].expiresAt ==> id in t.store && t.store[id] == s.store[id])
    decreases |events|
  {
    hide Next, Inv, Touches;
    if events != [] {
      var t := Next(cfg, s, events[0]);
      NextKeepsEntry(cfg, s, events[0], id);
      NextKeepsInv(cfg, s, events[0]);
      if Live(t, id) {
        ExecKeepsEntry(cfg, t, events[1..], id);
      } else {
        ExecKeepsInv(cfg, t, events[1..]);
        assert Grows(ViewOf(t, id), ViewOf(Exec(cfg, t, events[1..]), id));
      }
    }
  }

  /** A sign-in that completes can be read until its TTL has passed, over any events that neither
      update nor remove it. */
  lemma SignInLasts(cfg: Config, s: State, p: Pid, events: seq<Event>)
    requires Inv(cfg, s) && p in s.handlers && s.handlers[p].pc.Callback?
    requires Untouched(cfg, Next(cfg, s, Run(p, Go)), events, s.handlers[p].id)
    ensures var h, t := s.handlers[p], Exec(cfg, Next(cfg, s, Run(p, Go)), events);
            t.now <= s.now + h.pc.ttl ==> Read(t, h.id) == Some(h.pc.sess)
  {
    var h, t := s.handlers[p], Next(cfg, s, Run(p, Go));
    assert h.id in t.store && t.store[h.id].sess == h.pc.sess && t.store[h.id].expiresAt == s.now + h.pc.ttl && t.now == s.now;
    hide Next, Inv, Exec, Untouched;
    NextKeepsInv(cfg, s, Run(p, Go));
    if Live(t, h.id) {
      ExecKeepsEntry(cfg, t, events, h.id);
    } else {
      ExecKeepsInv(cfg, t, events);
      assert Grows(ViewOf(t, h.id), ViewOf(Exec(cfg, t, events), h.id));
    }
  }

  /** A sign-in that is answered stores exactly what it was given: the user, the tokens and claims of
      the response, signed in and active now, for as long as the limits allow. */
  lemma SignInStores(cfg: Config, s: State, e: Event)
    requires e.SignIn? && e.pid !in s.handlers && e.id !in s.issued
    ensures var t := Next(cfg, Next(cfg, s, e), Run(e.pid, Go));
            && e.id in t.store && e.id in t.issued && t.handlers[e.pid].pc.SignedIn?
            && var x := t.store[e.id].sess;
            && x.userId == e.subject && x.idToken == e.idToken && x.attributes == e.attributes && x.version == 0
            && x.access == e.resp.access && x.refresh == e.resp.refresh && x.expiry == e.resp.expiry
            && x.claims == e.claims && x.sid == e.claims.sid && x.authTime == e.claims.authTime && x.amr == e.claims.amr
            && x.createdAt == x.lastActivity == s.now && t.store[e.id].expiresAt == s.now + SessionTTLFor(cfg, x, s.now)
            && forall id <- s.store | id != e.id :: id in t.store && t.store[id] == s.store[id]
  {
    hide SessionTTLFor;
  }

  /** A logout that gets to delete is final: whatever was stored is never read again. */
  lemma LogoutIsFinal(cfg: Config, s: State, p: Pid, proc: nat, id: Id, events: seq<Event>)
    requires Inv(cfg, s) && p !in s.handlers && id in s.history
    ensures var t := Next(cfg, Next(cfg, s, SignOut(p, proc, id)), Run(p, Go));
            t.handlers[p].pc.SignedOut? && Read(Exec(cfg, t, events), id) == None
  {
    hide Next, Inv, Exec, Read;
    var u := Next(cfg, s, SignOut(p, proc, id));
    var t := Next(cfg, u, Run(p, Go));
    assert Dead(t, id) && p in t.handlers && t.handlers[p].pc.SignedOut? by { LogoutDeletes(cfg, s, p, proc, id); }
    NextKeepsInv(cfg, s, SignOut(p, proc, id));
    NextKeepsInv(cfg, u, Run(p, Go));
    ExecKeepsDead(cfg, t, events, id);
    assert Read(Exec(cfg, t, events), id) == None by { DeadIsNotRead(Exec(cfg, t, events), id); }
  }

  lemma DeadIsNotRead(s: State, id: Id)
    requires Dead(s, id)
    ensures Read(s, id) == None
  {
  }

  lemma LogoutDeletes(cfg: Config, s: State, p: Pid, proc: nat, id: Id)
    requires p !in s.handlers && id in s.history
    ensures var t := Next(cfg, Next(cfg, s, SignOut(p, proc, id)), Run(p, Go));
            Dead(t, id) && p in t.handlers && t.handlers[p].pc.SignedOut?
  {
  }

  /** A logout whose delete fails is reported as failed, and the session stays as it is. */
  lemma FaultyLogoutIsReported(cfg: Config, s: State, p: Pid, proc: nat, id: Id)
    requires p !in s.handlers
    ensures var t := Next(cfg, Next(cfg, s, SignOut(p, proc, id)), Run(p, Fault));
            p in t.handlers && t.handlers[p].pc.Failed? && t.store == s.store
  {
  }

  /** The id was given to a sign-in that stores nothing any more. */
  ghost predicate Vacant(s: State, id: Id) {
    id in s.issued && id !in s.history && forall p | SigningIn(s, p) :: s.handlers[p].id != id
  }

  lemma EffectLeavesUnstored(s: State, p: Pid, e: Effect, id: Id)
    requires id !in s.history && IdInv(s, id) && !(e.Create? && e.id == id)
    ensures id !in Apply(s, p, e).history
  {
    hide Chain;
  }

  lemma RunKeepsVacant(cfg: Config, s: State, p: Pid, ch: Choice, id: Id)
    requires Vacant(s, id) && p in s.handlers && IdInv(s, id)
    ensures Vacant(RunHandler(cfg, s, p, ch), id)
  {
    hide StepHandler, Apply, IdInv;
    var h, t := s.handlers[p], RunHandler(cfg, s, p, ch);
    StepIsLocal(cfg, s, h, ch);
    assert h.pc.Callback? ==> SigningIn(s, p);
    EffectLeavesUnstored(s, p, StepHandler(cfg, s, h, ch).1, id);
    ApplyKeepsHandlers(s, p, StepHandler(cfg, s, h, ch).1);
    forall q | SigningIn(t, q) ensures SigningIn(s, q) && t.handlers[q].id == s.handlers[q].id {}
  }

  lemma NextKeepsVacant(cfg: Config, s: State, e: Event, id: Id)
    requires Vacant(s, id) && IdInv(s, id)
    ensures Vacant(Next(cfg, s, e), id)
  {
    hide RunHandler, SessionTTLFor, NewSession, IdInv;
    var t := Next(cfg, s, e);
    if e.Run? && Enabled(s, e) {
      RunKeepsVacant(cfg, s, e.pid, e.choice, id);
    } else {
      forall q | SigningIn(t, q) ensures t.handlers[q].id != id { assert q in s.handlers ==> SigningIn(s, q); }
    }
  }

  lemma {:induction false} ExecKeepsVacant(cfg: Config, s: State, events: seq<Event>, id: Id)
    requires Inv(cfg, s) && Vacant(s, id)
    ensures Vacant(Exec(cfg, s, events), id) && Inv(cfg, Exec(cfg, s, events))
    decreases |events|
  {
    hide Next, Vacant, FreshInv, HandlerInv, IdInv;
    if events != [] {
      assert IdInv(s, id);
      NextKeepsVacant(cfg, s, events[0], id);
      NextKeepsInv(cfg, s, events[0]);
      ExecKeepsVacant(cfg, Next(cfg, s, events[0]), events[1..], id);
    }
  }

  /** A sign-in that the store fails is reported as failed, and its id can never be read, whatever
      follows. */
  lemma FaultySignInIsReported(cfg: Config, s: State, e: Event, events: seq<Event>)
    requires Inv(cfg, s) && e.SignIn? && e.pid !in s.handlers && e.id !in s.issued
    ensures var t := Next(cfg, Next(cfg, s, e), Run(e.pid, Fault));
            t.handlers[e.pid].pc.Failed? && Read(Exec(cfg, t, events), e.id) == None
  {
    hide Next, Exec, Inv, Read;
    var u := Next(cfg, s, e);
    var t := Next(cfg, u, Run(e.pid, Fault));
    NextKeepsInv(cfg, s, e);
    NextKeepsInv(cfg, u, Run(e.pid, Fault));
    assert Vacant(t, e.id) && e.pid in t.handlers && t.handlers[e.pid].pc.Failed? by { FaultySignIn(cfg, s, e); }
    ExecKeepsVacant(cfg, t, events, e.id);
    assert Read(Exec(cfg, t, events), e.id) == None by { VacantIsNotRead(cfg, Exec(cfg, t, events), e.id); }
  }

  lemma FaultySignIn(cfg: Config, s: State, e: Event)
    requires Inv(cfg, s) && e.SignIn? && e.pid !in s.handlers && e.id !in s.issued
    ensures var t := Next(cfg, Next(cfg, s, e), Run(e.pid, Fault));
            Vacant(t, e.id) && e.pid in t.handlers && t.handlers[e.pid].pc.Failed?
  {
    hide SessionTTLFor, NewSession, StoreInv, HandlerInv;
    var t := Next(cfg, Next(cfg, s, e), Run(e.pid, Fault));
    forall q | SigningIn(t, q) ensures t.handlers[q].id != e.id { assert SigningIn(s, q); }
  }

  lemma VacantIsNotRead(cfg: Config, s: State, id: Id)
    requires Inv(cfg, s) && Vacant(s, id)
    ensures Read(s, id) == None
  {
    hide HandlerInv, FreshInv, Chain;
    assert IdInv(s, id);
  }

  // ---- a request that has its session ----

  /** Where a request can stand that has got session v: what it returns is v, or v with its own
      activity. */
  predicate HasGot(pc: Pc, v: Session) {
    match pc
    case Record(x) => x == v
    case WriteActivity(x, u, _, at) => x == v && u == v.(lastActivity := at, version := v.version + 1)
    case Done(result) =>
      result.Some? && var x := result.value; x == v || x == v.(lastActivity := x.lastActivity, version := v.version + 1)
    case _ => false
  }

  lemma StepKeepsGot(cfg: Config, s: State, h: Handler, ch: Choice, v: Session)
    requires HasGot(h.pc, v)
    ensures HasGot(StepHandler(cfg, s, h, ch).0, v) && (!h.pc.Record? ==> StepHandler(cfg, s, h, ch).0.Done?)
  {
    hide SessionTTLFor;
  }

  lemma NextKeepsGot(cfg: Config, s: State, e: Event, p: Pid, v: Session)
    requires p in s.handlers && HasGot(s.handlers[p].pc, v)
    ensures p in Next(cfg, s, e).handlers && HasGot(Next(cfg, s, e).handlers[p].pc, v)
  {
    hide StepHandler, Apply, HasGot, SessionTTLFor, NewSession;
    if e.Run? && Enabled(s, e) {
      ApplyKeepsHandlers(s, e.pid, StepHandler(cfg, s, s.handlers[e.pid], e.choice).1);
      if e.pid == p { StepKeepsGot(cfg, s, s.handlers[p], e.choice, v); }
    }
  }

  lemma {:induction false} ExecKeepsGot(cfg: Config, s: State, events: seq<Event>, p: Pid, v: Session)
    requires p in s.handlers && HasGot(s.handlers[p].pc, v)
    ensures p in Exec(cfg, s, events).handlers && HasGot(Exec(cfg, s, events).handlers[p].pc, v)
    decreases |events|
  {
    hide Next, HasGot;
    if events != [] {
      NextKeepsGot(cfg, s, events[0], p, v);
      ExecKeepsGot(cfg, Next(cfg, s, events[0]), events[1..], p, v);
    }
  }

  /** A request that has its session is served it, with or without its own activity on it, within two
      steps of its own: no fault of the store, no race and no deletion takes it away. */
  lemma HeldIsServed(cfg: Config, s: State, p: Pid, v: Session, a: seq<Event>, ch: Choice, b: seq<Event>, ch': Choice)
    requires p in s.handlers && s.handlers[p].pc == Record(v)
    ensures var t := Next(cfg, Exec(cfg, Next(cfg, Exec(cfg, s, a), Run(p, ch)), b), Run(p, ch'));
            && p in t.handlers && t.handlers[p].pc.Done? && t.handlers[p].pc.result.Some?
            && var x := t.handlers[p].pc.result.value;
            x == v || x == v.(lastActivity := x.lastActivity, version := v.version + 1)
  {
    hide Next, HasGot;
    assert HasGot(Record(v), v) by { GotIt(v); }
    ExecKeepsGot(cfg, s, a, p, v);
    var t := Exec(cfg, s, a);
    OneStepOn(cfg, t, p, ch, v);
    NextKeepsGot(cfg, t, Run(p, ch), p, v);
    var u := Next(cfg, t, Run(p, ch));
    ExecPastRecord(cfg, u, b, p, v);
    OneStepOn(cfg, Exec(cfg, u, b), p, ch', v);
    NextKeepsGot(cfg, Exec(cfg, u, b), Run(p, ch'), p, v);
    Returned(Next(cfg, Exec(cfg, u, b), Run(p, ch')).handlers[p].pc, v);
  }

  lemma GotIt(v: Session)
    ensures HasGot(Record(v), v)
  {
  }

  lemma Returned(pc: Pc, v: Session)
    requires HasGot(pc, v) && pc.Done?
    ensures pc.result.Some? && var x := pc.result.value; x == v || x == v.(lastActivity := x.lastActivity, version := v.version + 1)
  {
  }

  lemma OneStepOn(cfg: Config, s: State, p: Pid, ch: Choice, v: Session)
    requires p in s.handlers && HasGot(s.handlers[p].pc, v)
    ensures var t := Next(cfg, s, Run(p, ch));
            p in t.handlers && (t.handlers[p].pc.Done? || t.handlers[p].pc.WriteActivity?)
            && (!s.handlers[p].pc.Record? ==> t.handlers[p].pc.Done?)
  {
    StepKeepsGot(cfg, s, s.handlers[p], ch, v);
    ApplyKeepsHandlers(s, p, StepHandler(cfg, s, s.handlers[p], ch).1);
    PastRecord(cfg, s, s.handlers[p], ch);
    hide StepHandler, Apply, HasGot;
  }

  lemma PastRecord(cfg: Config, s: State, h: Handler, ch: Choice)
    requires h.pc.Record? || h.pc.WriteActivity? || h.pc.Done?
    ensures var pc := StepHandler(cfg, s, h, ch).0; pc.Done? || pc.WriteActivity?
  {
    hide SessionTTLFor;
  }

  lemma {:induction false} ExecPastRecord(cfg: Config, s: State, events: seq<Event>, p: Pid, v: Session)
    requires p in s.handlers && HasGot(s.handlers[p].pc, v) && !s.handlers[p].pc.Record?
    ensures var t := Exec(cfg, s, events); p in t.handlers && HasGot(t.handlers[p].pc, v) && !t.handlers[p].pc.Record?
    decreases |events|
  {
    hide Next, HasGot;
    if events != [] {
      NextKeepsGot(cfg, s, events[0], p, v);
      StaysPastRecord(cfg, s, events[0], p, v);
      ExecPastRecord(cfg, Next(cfg, s, events[0]), events[1..], p, v);
    }
  }

  lemma StaysPastRecord(cfg: Config, s: State, e: Event, p: Pid, v: Session)
    requires p in s.handlers && HasGot(s.handlers[p].pc, v) && !s.handlers[p].pc.Record?
    ensures p in Next(cfg, s, e).handlers && !Next(cfg, s, e).handlers[p].pc.Record?
  {
    hide StepHandler, Apply, HasGot, SessionTTLFor, NewSession;
    if e.Run? && Enabled(s, e) {
      ApplyKeepsHandlers(s, e.pid, StepHandler(cfg, s, s.handlers[e.pid], e.choice).1);
      if e.pid == p { OneStepOn(cfg, s, p, e.choice, v); }
    }
  }
}
