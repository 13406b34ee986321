/** A refresh that fails. As long as the provider refuses nothing, it deletes no session before the
    access token it set out to renew has expired and the grace period has passed. What it then
    deletes needed a refresh itself, unless another refresh was stored in the meantime. */
module OutageGrace {
  import opened Basics
  import opened Sessions
  import opened SessionProtocol
  import opened SessionInvariant
  import SessionRuns

  /** The answer refuses the refresh for good. */
  predicate Refuses(f: Flight, ch: Choice) {
    ch.Rejected? || ch.BadIdToken? || (ch.Tokens? && !Acceptable(f.current, ch.resp))
  }

  predicate IsRefusal(s: State, e: Event) {
    && e.Run? && e.pid in s.handlers && s.handlers[e.pid].pc.Refresh?
    && s.handlers[e.pid].pc.flight.at.Exchanging? && Refuses(s.handlers[e.pid].pc.flight, e.choice)
  }

  predicate NoRefusals(cfg: Config, s: State, events: seq<Event>)
    decreases |events|
  {
    events == [] || (!IsRefusal(s, events[0]) && NoRefusals(cfg, Next(cfg, s, events[0]), events[1..]))
  }

  /** Nothing failed for good, and what is about to be deleted is past its grace. */
  predicate Patient(cfg: Config, now: Time, f: Flight) {
    && f.at != FailRead(true) && f.at != FailDecide(true)
    && (f.at.FailDelete? ==> now >= f.current.expiry + cfg.outageGrace)
  }

  ghost predicate AllPatient(cfg: Config, s: State) {
    forall p <- s.handlers :: s.handlers[p].pc.Refresh? ==> Patient(cfg, s.now, s.handlers[p].pc.flight)
  }

  lemma LockStaysPatient(cfg: Config, s: State, id: Id, f: Flight, ch: Choice)
    requires Waiting(f.at)
    ensures var g := StepLock(cfg, s, id, f, ch).0; !Failing(g.at) || g.at == FailRead(false)
  {
    hide NeedsRefresh;
  }

  lemma StoreStaysPatient(cfg: Config, s: State, id: Id, f: Flight, ch: Choice)
    requires Storing(f.at)
    ensures !Failing(StepStore(cfg, s, id, f, ch).0.at)
  {
    hide NeedsRefresh, SessionTTLFor, Rebase, OnlyActivityChanged;
  }

  lemma MainStaysPatient(cfg: Config, s: State, id: Id, f: Flight, ch: Choice)
    requires !Waiting(f.at) && !Storing(f.at) && !Failing(f.at) && !f.at.Exchanging?
    ensures var g := StepMain(cfg, s, id, f, ch).0; !Failing(g.at) || g.at == FailRead(false)
  {
    hide NeedsRefresh;
  }

  lemma ExchangeStaysPatient(id: Id, f: Flight, ch: Choice)
    requires f.at.Exchanging? && !Refuses(f, ch)
    ensures var g := StepExchange(id, f, ch).0; !Failing(g.at) || g.at == FailRead(false)
  {
    hide ApplyTokens, Acceptable;
  }

  lemma FailStaysPatient(cfg: Config, s: State, id: Id, f: Flight, ch: Choice)
    requires Failing(f.at) && Patient(cfg, s.now, f)
    ensures Patient(cfg, s.now, StepFail(cfg, s, id, f, ch).0)
  {
    hide NeedsRefresh;
  }

  lemma FlightStaysPatient(cfg: Config, s: State, id: Id, f: Flight, ch: Choice)
    requires Patient(cfg, s.now, f) && !(f.at.Exchanging? && Refuses(f, ch))
    ensures Patient(cfg, s.now, StepFlight(cfg, s, id, f, ch).0)
  {
    hide StepLock, StepStore, StepMain, StepExchange, StepFail, NeedsRefresh, Refuses;
    if Waiting(f.at) {
      LockStaysPatient(cfg, s, id, f, ch);
    } else if Storing(f.at) {
      StoreStaysPatient(cfg, s, id, f, ch);
    } else if Failing(f.at) {
      FailStaysPatient(cfg, s, id, f, ch);
    } else if f.at.Exchanging? {
      ExchangeStaysPatient(id, f, ch);
    } else {
      MainStaysPatient(cfg, s, id, f, ch);
    }
  }

  lemma HandlerStaysPatient(cfg: Config, s: State, h: Handler, ch: Choice)
    requires h.pc.Refresh? ==> Patient(cfg, s.now, h.pc.flight)
    requires !(h.pc.Refresh? && h.pc.flight.at.Exchanging? && Refuses(h.pc.flight, ch))
    ensures var pc := StepHandler(cfg, s, h, ch).0; pc.Refresh? ==> Patient(cfg, s.now, pc.flight)
  {
    hide StepFlight, NeedsRefresh, LifetimeExceeded, SessionTTLFor, Refuses;
    if h.pc.Refresh? { FlightStaysPatient(cfg, s, h.id, h.pc.flight, ch); }
  }

  lemma RunStaysPatient(cfg: Config, s: State, p: Pid, ch: Choice)
    requires AllPatient(cfg, s) && p in s.handlers && !IsRefusal(s, Run(p, ch))
    ensures AllPatient(cfg, RunHandler(cfg, s, p, ch))
  {
    HandlerStaysPatient(cfg, s, s.handlers[p], ch);
    ApplyKeepsHandlers(s, p, StepHandler(cfg, s, s.handlers[p], ch).1);
    hide StepHandler, Patient, Refuses, Apply;
    var t := RunHandler(cfg, s, p, ch);
    assert t.now == s.now && forall q | q in s.handlers && q != p :: t.handlers[q] == s.handlers[q];
  }

  lemma NextStaysPatient(cfg: Config, s: State, e: Event)
    requires AllPatient(cfg, s) && !IsRefusal(s, e)
    ensures AllPatient(cfg, Next(cfg, s, e))
  {
    hide RunHandler, NewSession, SessionTTLFor;
    if e.Run? && Enabled(s, e) { RunStaysPatient(cfg, s, e.pid, e.choice); }
  }

  lemma {:induction false} ExecStaysPatient(cfg: Config, s: State, events: seq<Event>)
    requires AllPatient(cfg, s) && NoRefusals(cfg, s, events)
    ensures AllPatient(cfg, Exec(cfg, s, events))
    decreases |events|
  {
    hide AllPatient, Next, IsRefusal;
    if events != [] {
      NextStaysPatient(cfg, s, events[0]);
      ExecStaysPatient(cfg, Next(cfg, s, events[0]), events[1..]);
    }
  }

  /** In a run without refusals, a failed refresh deletes only when the access token it set out to
      renew expired at least a grace period ago. */
  lemma OutageSparesSessions(cfg: Config, s0: State, events: seq<Event>, p: Pid)
    requires Init(s0) && NoRefusals(cfg, s0, events)
    ensures var s := Exec(cfg, s0, events);
            p in s.handlers && s.handlers[p].pc.Refresh? && s.handlers[p].pc.flight.at.FailDelete? ==>
              s.now >= s.handlers[p].pc.flight.current.expiry + cfg.outageGrace
  {
    hide Next, NoRefusals;
    ExecStaysPatient(cfg, s0, events);
  }

  // ---- what a failed refresh deletes ----

  /** Points that a flight reaches only with a session that needs its refresh. */
  predicate Committed(at: Point) {
    Waiting(at) || Failing(at) || at.Ready? || at.Exchanging? || at.ReleaseFailing?
  }

  predicate DueInv(cfg: Config, now: Time, f: Flight) {
    && (Committed(f.at) ==> NeedsRefresh(cfg, f.current, now))
    && (f.at.FailDelete? && f.found.Some? ==> NeedsRefresh(cfg, f.found.value, now))
  }

  ghost predicate AllDue(cfg: Config, s: State) {
    forall p <- s.handlers :: s.handlers[p].pc.Refresh? ==> DueInv(cfg, s.now, s.handlers[p].pc.flight)
  }

  lemma LockStaysDue(cfg: Config, s: State, id: Id, f: Flight, ch: Choice)
    requires Waiting(f.at) && DueInv(cfg, s.now, f)
    ensures DueInv(cfg, s.now, StepLock(cfg, s, id, f, ch).0)
  {
    hide NeedsRefresh;
  }

  lemma StoreStaysDue(cfg: Config, s: State, id: Id, f: Flight, ch: Choice)
    requires Storing(f.at)
    ensures DueInv(cfg, s.now, StepStore(cfg, s, id, f, ch).0)
  {
    hide NeedsRefresh, SessionTTLFor, Rebase, OnlyActivityChanged;
  }

  lemma MainStaysDue(cfg: Config, s: State, id: Id, f: Flight, ch: Choice)
    requires !Waiting(f.at) && !Storing(f.at) && !Failing(f.at) && !f.at.Exchanging? && DueInv(cfg, s.now, f)
    ensures DueInv(cfg, s.now, StepMain(cfg, s, id, f, ch).0)
  {
    hide NeedsRefresh;
  }

  lemma ExchangeStaysDue(cfg: Config, now: Time, id: Id, f: Flight, ch: Choice)
    requires f.at.Exchanging? && DueInv(cfg, now, f)
    ensures DueInv(cfg, now, StepExchange(id, f, ch).0)
  {
    hide NeedsRefresh, ApplyTokens, Acceptable;
  }

  lemma FailStaysDue(cfg: Config, s: State, id: Id, f: Flight, ch: Choice)
    requires Failing(f.at) && DueInv(cfg, s.now, f)
    ensures DueInv(cfg, s.now, StepFail(cfg, s, id, f, ch).0)
  {
    hide NeedsRefresh;
  }

  lemma FlightStaysDue(cfg: Config, s: State, id: Id, f: Flight, ch: Choice)
    requires DueInv(cfg, s.now, f)
    ensures DueInv(cfg, s.now, StepFlight(cfg, s, id, f, ch).0)
  {
    hide StepLock, StepStore, StepMain, StepExchange, StepFail, DueInv;
    if Waiting(f.at) {
      LockStaysDue(cfg, s, id, f, ch);
    } else if Storing(f.at) {
      StoreStaysDue(cfg, s, id, f, ch);
    } else if Failing(f.at) {
      FailStaysDue(cfg, s, id, f, ch);
    } else if f.at.Exchanging? {
      ExchangeStaysDue(cfg, s.now, id, f, ch);
    } else {
      MainStaysDue(cfg, s, id, f, ch);
    }
  }

  lemma HandlerStaysDue(cfg: Config, s: State, h: Handler, ch: Choice)
    requires h.pc.Refresh? ==> DueInv(cfg, s.now, h.pc.flight)
    ensures var pc := StepHandler(cfg, s, h, ch).0; pc.Refresh? ==> DueInv(cfg, s.now, pc.flight)
  {
    hide StepFlight, NeedsRefresh, LifetimeExceeded, SessionTTLFor;
    if h.pc.Refresh? { FlightStaysDue(cfg, s, h.id, h.pc.flight, ch); }
  }

  lemma DueLater(cfg: Config, now: Time, later: Time, f: Flight)
    requires DueInv(cfg, now, f) && now <= later
    ensures DueInv(cfg, later, f)
  {
  }

  lemma NextStaysDue(cfg: Config, s: State, e: Event)
    requires AllDue(cfg, s)
    ensures AllDue(cfg, Next(cfg, s, e))
  {
    var t := Next(cfg, s, e);
    hide StepHandler, DueInv, Apply, NewSession, SessionTTLFor;
    if e.Run? && Enabled(s, e) {
      HandlerStaysDue(cfg, s, s.handlers[e.pid], e.choice);
      ApplyKeepsHandlers(s, e.pid, StepHandler(cfg, s, s.handlers[e.pid], e.choice).1);
    } else {
      forall p <- t.handlers | t.handlers[p].pc.Refresh? ensures DueInv(cfg, t.now, t.handlers[p].pc.flight) {
        DueLater(cfg, s.now, t.now, s.handlers[p].pc.flight);
      }
    }
  }

  lemma {:induction false} ExecStaysDue(cfg: Config, s: State, events: seq<Event>)
    requires AllDue(cfg, s)
    ensures AllDue(cfg, Exec(cfg, s, events))
    decreases |events|
  {
    hide AllDue, Next;
    if events != [] {
      NextStaysDue(cfg, s, events[0]);
      ExecStaysDue(cfg, Next(cfg, s, events[0]), events[1..]);
    }
  }

  /** What the last refresh stored after a version brought, if one was stored. */
  function LastRenewal(hs: seq<Write>, version: nat): Option<Response> {
    if hs == [] || hs[|hs| - 1].sess.version <= version then None
    else if hs[|hs| - 1].how.Refreshed? then Some(hs[|hs| - 1].how.resp)
    else LastRenewal(hs[..|hs| - 1], version)
  }

  /** A later version has the tokens of an earlier one, but for the last refresh in between. */
  lemma {:induction false} TokensSince(hs: seq<Write>, v: Session)
    requires Chain(hs) && Recorded(hs, v) && v.refresh != ""
    ensures var x, r := Latest(hs), LastRenewal(hs, v.version);
            x.refresh != "" && x.expiry == if r.Some? then r.value.expiry else v.expiry
  {
    hide Later;
    LatestRecorded(hs);
    var last := |hs| - 1;
    if hs[last].sess.version > v.version {
      assert hs[last].sess.version == hs[0].sess.version + last;
      assert Link(hs[last - 1].sess, hs[last]);
      assert Chain(hs[..last]) && Recorded(hs[..last], v) by { ShorterChain(hs, v); }
      TokensSince(hs[..last], v);
    }
  }

  lemma ShorterChain(hs: seq<Write>, v: Session)
    requires Chain(hs) && Recorded(hs, v) && hs[|hs| - 1].sess.version > v.version
    ensures Chain(hs[..|hs| - 1]) && Recorded(hs[..|hs| - 1], v)
  {
    hide Later, Link;
    assert hs[|hs| - 1].sess.version == hs[0].sess.version + (|hs| - 1);
  }

  /** The version a failed refresh last read of the session it is about to delete. */
  function LastSeen(f: Flight): Session {
    if f.found.Some? then f.found.value else f.current
  }

  /** What a failed refresh is about to delete needs a refresh if and only if no refresh was stored
      after the version it last read, or the last one brought tokens that are due themselves. */
  lemma DeletedIsDueIff(cfg: Config, s0: State, events: seq<Event>, p: Pid)
    requires Init(s0)
    ensures var s := Exec(cfg, s0, events);
            p in s.handlers && s.handlers[p].pc.Refresh? && s.handlers[p].pc.flight.at.FailDelete?
            && Live(s, s.handlers[p].id) ==>
              var h := s.handlers[p];
              var renewal := LastRenewal(Hist(s, h.id), LastSeen(h.pc.flight).version);
              NeedsRefresh(cfg, s.store[h.id].sess, s.now) <==>
              renewal.None? || (renewal.value.expiry != ZERO_TIME && s.now + cfg.refreshLeeway >= renewal.value.expiry)
  {
    hide Init, Chain, Exec, LastRenewal;
    var s := Exec(cfg, s0, events);
    InitInv(cfg, s0);
    SessionRuns.ExecKeepsInv(cfg, s0, events);
    assert AllDue(cfg, s0) by { NobodyIsDue(cfg, s0); }
    ExecStaysDue(cfg, s0, events);
    if p in s.handlers && s.handlers[p].pc.Refresh? && s.handlers[p].pc.flight.at.FailDelete? && Live(s, s.handlers[p].id) {
      var h := s.handlers[p];
      assert HandlerInv(cfg, s, h) && IdInv(s, h.id) && DueInv(cfg, s.now, h.pc.flight);
      TokensSince(Hist(s, h.id), LastSeen(h.pc.flight));
    }
  }

  lemma NobodyIsDue(cfg: Config, s: State)
    requires Init(s)
    ensures AllDue(cfg, s)
  {
  }
}
