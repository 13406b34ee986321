/** One refresh per process and session: who joins a refresh goes on with what its leader goes on
    with, in every run. */
module SharedRefresh {
  import opened Basics
  import opened Sessions
  import opened SessionProtocol
  import opened SessionInvariant
  import opened SessionRuns
  import opened SessionProgress

  /** The n-th event is the step in which l's refresh is over, and l goes on to pc. */
  ghost predicate LeavesAt(cfg: Config, s0: State, events: seq<Event>, n: int, l: Pid, pc: Pc) {
    && 0 <= n < |events| && events[n].Run? && events[n].pid == l
    && var s := Exec(cfg, s0, events[..n]);
    && l in s.handlers && s.handlers[l].pc.Refresh?
    && var t := Next(cfg, s, events[n]);
    && l in t.handlers && !t.handlers[l].pc.Refresh? && t.handlers[l].pc == pc
  }

  /** Where a request stands once its refresh is over. */
  predicate Settled(pc: Pc) {
    pc.Record? || pc.WriteActivity? || pc.Done?
  }

  predicate LeadInv(s: State, h: Handler) {
    && (h.led.Some? ==> Settled(h.pc))
    && (h.pc.Join? ==>
          && h.pc.leader in s.handlers
          && var l := s.handlers[h.pc.leader];
          l.proc == h.proc && l.id == h.id && (l.pc.Refresh? || l.led.Some?))
  }

  ghost predicate AllLead(s: State) {
    forall p <- s.handlers :: LeadInv(s, s.handlers[p])
  }

  /** What a step of a handler may do to the refresh it leads or has joined. */
  lemma StepLeads(cfg: Config, s: State, h: Handler, ch: Choice)
    ensures var pc := StepHandler(cfg, s, h, ch).0;
            && (Settled(h.pc) ==> Settled(pc))
            && (h.pc.Refresh? ==> if h.pc.flight.at.Finished?
                                  then pc == OnwardTo(h.pc.flight.outcome)
                                  else pc.Refresh?)
            && (pc.Join? ==> pc == h.pc || Leads(s, h.proc, h.id, pc.leader))
  {
    hide StepFlight, NeedsRefresh, LifetimeExceeded, SessionTTLFor;
  }

  lemma RunLeads(cfg: Config, s: State, p: Pid, ch: Choice)
    requires AllLead(s) && p in s.handlers
    ensures AllLead(RunHandler(cfg, s, p, ch))
  {
    hide StepHandler, Apply;
    var h := s.handlers[p];
    StepLeads(cfg, s, h, ch);
    ApplyKeepsHandlers(s, p, StepHandler(cfg, s, h, ch).1);
    var t := RunHandler(cfg, s, p, ch);
    assert LeadInv(s, h);
    forall q <- t.handlers ensures LeadInv(t, t.handlers[q]) {
      assert LeadInv(s, s.handlers[q]);
    }
  }

  lemma NextLeads(cfg: Config, s: State, e: Event)
    requires AllLead(s)
    ensures AllLead(Next(cfg, s, e))
  {
    hide RunHandler, NewSession, SessionTTLFor;
    if e.Run? && Enabled(s, e) {
      RunLeads(cfg, s, e.pid, e.choice);
    } else {
      var t := Next(cfg, s, e);
      forall q <- t.handlers ensures LeadInv(t, t.handlers[q]) {
        assert q in s.handlers ==> LeadInv(s, s.handlers[q]);
      }
    }
  }

  lemma {:induction false} ExecLeads(cfg: Config, s: State, events: seq<Event>)
    requires AllLead(s)
    ensures AllLead(Exec(cfg, s, events))
    decreases |events|
  {
    hide AllLead, Next;
    if events != [] {
      NextLeads(cfg, s, events[0]);
      ExecLeads(cfg, Next(cfg, s, events[0]), events[1..]);
    }
  }

  // ---- where an outcome comes from ----

  /** What a leader has left for others is what it went on with itself. */
  ghost predicate LedAsItWent(cfg: Config, s0: State, events: seq<Event>, l: Pid, h: Handler) {
    h.led.Some? ==> var pc := OnwardTo(h.led.value); exists n :: LeavesAt(cfg, s0, events, n, l, pc)
  }

  lemma LeavingStays(cfg: Config, s0: State, events: seq<Event>, e: Event, n: int, l: Pid, pc: Pc)
    requires LeavesAt(cfg, s0, events, n, l, pc)
    ensures LeavesAt(cfg, s0, events + [e], n, l, pc)
  {
    hide Exec, Next;
    assert (events + [e])[..n] == events[..n];
  }

  lemma LedStep(cfg: Config, s: State, e: Event, l: Pid)
    requires l in Next(cfg, s, e).handlers && Next(cfg, s, e).handlers[l].led.Some?
    ensures l in s.handlers
    ensures var h, g := s.handlers[l], Next(cfg, s, e).handlers[l];
            h.led != g.led ==>
              && e.Run? && e.pid == l && h.pc.Refresh?
              && g.pc == OnwardTo(g.led.value)
  {
    hide StepHandler, Apply, SessionTTLFor, NewSession;
    if e.Run? && Enabled(s, e) {
      StepLeads(cfg, s, s.handlers[e.pid], e.choice);
      ApplyKeepsHandlers(s, e.pid, StepHandler(cfg, s, s.handlers[e.pid], e.choice).1);
    }
  }

  lemma {:induction false} LeaderLeft(cfg: Config, s0: State, events: seq<Event>, l: Pid)
    requires Init(s0)
    ensures var s := Exec(cfg, s0, events); l in s.handlers ==> LedAsItWent(cfg, s0, events, l, s.handlers[l])
    decreases |events|
  {
    hide Next, LeavesAt;
    if events != [] {
      var last := |events| - 1;
      var most, e := events[..last], events[last];
      ExecSplits(cfg, s0, most, [e]);
      assert most + [e] == events && [e][1..] == [];
      LeaderLeft(cfg, s0, most, l);
      LeaderLeftStep(cfg, s0, most, e, l);
    }
  }

  lemma LeaderLeftStep(cfg: Config, s0: State, most: seq<Event>, e: Event, l: Pid)
    requires var s := Exec(cfg, s0, most); l in s.handlers ==> LedAsItWent(cfg, s0, most, l, s.handlers[l])
    ensures var t := Next(cfg, Exec(cfg, s0, most), e);
            l in t.handlers ==> LedAsItWent(cfg, s0, most + [e], l, t.handlers[l])
  {
    hide Next, Exec;
    var s, n := Exec(cfg, s0, most), |most|;
    var t := Next(cfg, s, e);
    if l in t.handlers && t.handlers[l].led.Some? {
      LedStep(cfg, s, e, l);
      var pc := OnwardTo(t.handlers[l].led.value);
      if s.handlers[l].led != t.handlers[l].led {
        assert (most + [e])[..n] == most && (most + [e])[n] == e;
        assert LeavesAt(cfg, s0, most + [e], n, l, pc);
      } else {
        var m :| LeavesAt(cfg, s0, most, m, l, pc);
        LeavingStays(cfg, s0, most, e, m, l, pc);
      }
    }
  }

  // ---- who joins ----

  lemma JoinSteps(cfg: Config, s: State, p: Pid, l: Pid, ch: Choice)
    requires p in s.handlers && s.handlers[p].pc == Join(l) && l in s.handlers && LeadInv(s, s.handlers[l])
    ensures var t := Next(cfg, s, Run(p, ch));
            && p in t.handlers
            && t.handlers[p].pc ==
               if s.handlers[l].led.None? then Join(l)
               else OnwardTo(s.handlers[l].led.value)
  {
  }

  /** In every run, who has joined a refresh joined one of its own process and session. It waits as
      long as that refresh is under way, and then goes on to exactly where the leader went when
      its refresh was over: with the leader's session, or with nothing if the leader got nothing. */
  lemma JoinersFollow(cfg: Config, s0: State, events: seq<Event>, p: Pid, l: Pid, ch: Choice)
    requires Init(s0)
    requires var s := Exec(cfg, s0, events); p in s.handlers && s.handlers[p].pc == Join(l)
    ensures var s := Exec(cfg, s0, events);
            var t := Next(cfg, s, Run(p, ch));
            && l in s.handlers && s.handlers[l].proc == s.handlers[p].proc && s.handlers[l].id == s.handlers[p].id
            && p in t.handlers
            && if s.handlers[l].pc.Refresh? then t.handlers[p].pc == Join(l)
               else exists n :: LeavesAt(cfg, s0, events, n, l, t.handlers[p].pc)
  {
    hide Init, Next, Exec, LeavesAt;
    var s := Exec(cfg, s0, events);
    assert AllLead(s0) by { NobodyLeadsAtFirst(s0); }
    ExecLeads(cfg, s0, events);
    assert LeadInv(s, s.handlers[p]) && LeadInv(s, s.handlers[l]);
    LeaderLeft(cfg, s0, events, l);
    JoinSteps(cfg, s, p, l, ch);
  }

  lemma NobodyLeadsAtFirst(s: State)
    requires Init(s)
    ensures AllLead(s)
  {
  }

  lemma {:induction false} SettledStays(cfg: Config, s: State, events: seq<Event>, l: Pid)
    requires l in s.handlers && Settled(s.handlers[l].pc)
    ensures var t := Exec(cfg, s, events); l in t.handlers && Settled(t.handlers[l].pc)
    decreases |events|
  {
    hide Settled, StepHandler, Apply, SessionTTLFor, NewSession;
    if events != [] {
      var e := events[0];
      if e.Run? && Enabled(s, e) {
        StepLeads(cfg, s, s.handlers[e.pid], e.choice);
        ApplyKeepsHandlers(s, e.pid, StepHandler(cfg, s, s.handlers[e.pid], e.choice).1);
      }
      SettledStays(cfg, Next(cfg, s, e), events[1..], l);
    }
  }

  lemma LeavingSettles(cfg: Config, s: State, l: Pid, ch: Choice)
    requires l in s.handlers && s.handlers[l].pc.Refresh?
    ensures var t := Next(cfg, s, Run(l, ch)); l in t.handlers && (t.handlers[l].pc.Refresh? || Settled(t.handlers[l].pc))
  {
    hide StepHandler, Apply;
    StepLeads(cfg, s, s.handlers[l], ch);
  }

  /** A request leads at most one refresh, so what those who joined it get is one thing. */
  lemma LeavesOnce(cfg: Config, s0: State, events: seq<Event>, n: int, m: int, l: Pid, pc: Pc, pc': Pc)
    requires LeavesAt(cfg, s0, events, n, l, pc) && LeavesAt(cfg, s0, events, m, l, pc')
    ensures n == m && pc == pc'
  {
    if n < m { LeavesEarlier(cfg, s0, events, n, m, l, pc, pc'); }
    if m < n { LeavesEarlier(cfg, s0, events, m, n, l, pc', pc); }
  }

  lemma LeavesEarlier(cfg: Config, s0: State, events: seq<Event>, n: int, m: int, l: Pid, pc: Pc, pc': Pc)
    requires LeavesAt(cfg, s0, events, n, l, pc) && n < m
    ensures !LeavesAt(cfg, s0, events, m, l, pc')
  {
    hide Next;
    if m >= |events| { return; }
    var s := Exec(cfg, s0, events[..n]);
    ExecSplits(cfg, s0, events[..n], events[n..m]);
    assert events[..n] + events[n..m] == events[..m] && events[n..m][0] == events[n];
    LeavingSettles(cfg, s, l, events[n].choice);
    SettledStays(cfg, Next(cfg, s, events[n]), events[n..m][1..], l);
  }

  // ---- a request that joins is served ----

  lemma Joins(cfg: Config, s: State, p: Pid, l: Pid, id: Id, sess: Session) returns (t: State)
    requires At(s, p, id, Decide(sess)) && NeedsRefresh(cfg, sess, s.now) && Leads(s, s.handlers[p].proc, id, l)
    ensures t == Next(cfg, s, Run(p, Follow(l))) && At(t, p, id, Join(l))
    ensures t.now == s.now && t.store == s.store && t.locks == s.locks && t.handlers == s.handlers[p := t.handlers[p]]
    ensures t.handlers[p].background == s.handlers[p].background
  {
    hide NeedsRefresh;
    t := Next(cfg, s, Run(p, Follow(l)));
  }

  /** A request that finds a refresh of its session under way joins it, and once that refresh, left
      alone, has stored its tokens, the request is served the refreshed session. */
  lemma JoinerIsServed(cfg: Config, a: Answers, s: State, p: Pid, l: Pid, id: Id, sess: Session, f: Flight, resp: Response)
    returns (u: State, t: State)
    requires At(s, p, id, Decide(sess)) && NeedsRefresh(cfg, sess, s.now) && Leads(s, s.handlers[p].proc, id, l)
    requires Flies(s, l, id, f) && f.at.ReadStored? && !f.locked && s.now < f.deadline && s.now > ZERO_TIME
    requires Live(s, id) && NeedsRefresh(cfg, s.store[id].sess, s.now) && (cfg.locker ==> LockFree(s, id))
    requires a.exchange == Tokens(resp) && Acceptable(s.store[id].sess, resp)
    requires cfg.sessionTTL > 0 && WithinLimits(cfg, s.store[id].sess, s.now)
    ensures var updated := ApplyTokens(s.store[id].sess, resp);
            var x := WithActivity(cfg, updated, s.handlers[p].background, s.now);
            && Alone(cfg, a, Next(cfg, s, Run(p, Follow(l))), u, l) && At(u, l, id, Record(updated))
            && Live(u, id) && u.store[id].sess == updated
            && Ends(cfg, a, u, t, p) && At(t, p, id, Done(Some(x))) && Live(t, id) && t.store[id].sess == x
  {
    var updated := ApplyTokens(s.store[id].sess, resp);
    AppliedWithinLimits(cfg, s.store[id].sess, resp, s.now);
    hide Next, Alone, Ends, NeedsRefresh, Acceptable, ApplyTokens, SessionTTLFor, WithActivity, LockFree, WithinLimits;
    var s1 := Joins(cfg, s, p, l, id, sess);
    SameLocks(s, s1, id);
    u := RefreshSucceeds(cfg, a, s1, l, id, f, resp);
    AloneKeepsOther(cfg, a, s1, u, l, p);
    var v := JoinEnds(cfg, a, u, p, l, id, updated);
    AloneKeepsBackground(cfg, a, u, v, p);
    t := RecordFinishes(cfg, a, v, p, id, updated);
    AloneOn(cfg, a, u, v, t, p);
    AloneEnds(cfg, a, u, t, p);
  }

  lemma AloneKeepsOther(cfg: Config, a: Answers, s: State, t: State, p: Pid, q: Pid)
    requires Alone(cfg, a, s, t, p) && p in s.handlers && q in s.handlers && q != p
    ensures q in t.handlers && t.handlers[q] == s.handlers[q]
  {
    hide Drive;
    var n: nat :| Drive(cfg, a, s, p, n) == t;
    DriveKeepsHandlers(cfg, a, s, p, n);
  }

  lemma JoinEnds(cfg: Config, a: Answers, s: State, p: Pid, l: Pid, id: Id, v: Session) returns (t: State)
    requires At(s, p, id, Join(l)) && l in s.handlers && s.handlers[l].led == Some(Some(v))
    ensures Alone(cfg, a, s, t, p) && At(t, p, id, Record(v)) && t.store == s.store && t.now == s.now
  {
    hide Next, Alone;
    HandlerMoves(cfg, a, s, p, id, Join(l), Go);
    t := Next(cfg, s, Run(p, Go));
  }
}
