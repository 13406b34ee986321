/** The client-credentials token cache: callers that share one token-endpoint call.
    A step is a critical section, a channel operation or the call itself. */
module TokenSource {
  import opened Basics

  type Pid = nat
  type Chan = nat

  const SKEW := 30_000

  datatype Token = Token(text: string, expiry: Time)

  datatype Pc =
    | Enter
    | Waiting(done: Chan)
    | Calling(done: Chan)
    | Called(done: Chan, answer: Option<Token>)
    | Cached(token: Token, at: Time)
    | Obtained(token: Token)
    | Failed

  datatype State = State(now: Time, token: Option<Token>, refreshing: Option<Chan>, closed: set<Chan>,
                         made: nat, callers: map<Pid, Pc>)

  datatype Choice = Go | Cancel | Answer(answer: Option<Token>)

  datatype Event = Tick(to: Time) | Call(pid: Pid) | Run(pid: Pid, choice: Choice)

  predicate Usable(token: Option<Token>, now: Time) {
    token.Some? && token.value.expiry - now > SKEW
  }

  function Goto(s: State, p: Pid, pc: Pc): State {
    s.(callers := s.callers[p := pc])
  }

  /** One step of Token. */
  function Step(s: State, p: Pid, ch: Choice): State
    requires p in s.callers
  {
    match s.callers[p]
    case Enter =>
      if Usable(s.token, s.now) then Goto(s, p, Cached(s.token.value, s.now))
      else if s.refreshing.Some? then Goto(s, p, Waiting(s.refreshing.value))
      else Goto(s.(refreshing := Some(s.made), made := s.made + 1), p, Calling(s.made))
    case Waiting(done) =>
      if ch.Cancel? then Goto(s, p, Failed)
      else if done in s.closed then Goto(s, p, Enter)
      else s
    case Calling(done) => if ch.Answer? then Goto(s, p, Called(done, ch.answer)) else s
    case Called(done, answer) =>
      var t := s.(refreshing := None, closed := s.closed + {done});
      if answer.Some? then Goto(t.(token := answer), p, Obtained(answer.value)) else Goto(t, p, Failed)
    case Cached(_, _) | Obtained(_) | Failed => s
  }

  function Next(s: State, e: Event): State {
    match e
    case Tick(to) => if s.now <= to then s.(now := to) else s
    case Call(pid) => if pid in s.callers then s else Goto(s, pid, Enter)
    case Run(pid, ch) => if pid in s.callers then Step(s, pid, ch) else s
  }

  function Exec(s: State, events: seq<Event>): State
    decreases |events|
  {
    if events == [] then s else Exec(Next(s, events[0]), events[1..])
  }

  predicate Init(s: State) {
    s.token == None && s.refreshing == None && s.closed == {} && s.made == 0 && s.callers == map[]
  }

  // ---- what every step keeps ----

  /** Between the two critical sections. */
  predicate Leads(s: State, p: Pid) {
    p in s.callers && (s.callers[p].Calling? || s.callers[p].Called?)
  }

  predicate PcInv(s: State, pc: Pc) {
    && (pc.Calling? || pc.Called? ==> s.refreshing == Some(pc.done))
    && (pc.Waiting? ==> pc.done in s.closed || s.refreshing == Some(pc.done))
    && (pc.Cached? ==> pc.token.expiry - pc.at > SKEW)
  }

  ghost predicate Inv(s: State) {
    && (forall p <- s.callers :: PcInv(s, s.callers[p]))
    && (forall p, q | Leads(s, p) && Leads(s, q) :: p == q)
    && (s.refreshing.Some? ==> exists p :: Leads(s, p))
    && (forall c <- s.closed :: c < s.made && s.refreshing != Some(c))
    && (s.refreshing.Some? ==> s.refreshing.value < s.made)
  }

  /** Whoever leads after the step led before it, or the step made it the only leader. */
  lemma LeadersStep(s: State, p: Pid, ch: Choice, q: Pid)
    requires Inv(s) && p in s.callers
    ensures var t := Step(s, p, ch);
            Leads(t, q) ==> Leads(s, q) || (q == p && forall r :: !Leads(s, r))
  {
    if s.refreshing.None? {
      forall r ensures !Leads(s, r) { assert r in s.callers ==> PcInv(s, s.callers[r]); }
    }
  }

  lemma StepKeepsPcs(s: State, p: Pid, ch: Choice, q: Pid)
    requires Inv(s) && p in s.callers && q in s.callers
    ensures var t := Step(s, p, ch); PcInv(t, t.callers[q])
  {
    assert PcInv(s, s.callers[p]) && PcInv(s, s.callers[q]);
    assert Leads(s, p) && Leads(s, q) ==> p == q;
  }

  lemma StepKeepsInv(s: State, p: Pid, ch: Choice)
    requires Inv(s) && p in s.callers
    ensures Inv(Step(s, p, ch))
  {
    hide PcInv;
    var t := Step(s, p, ch);
    forall q <- t.callers ensures PcInv(t, t.callers[q]) { StepKeepsPcs(s, p, ch, q); }
    forall q, r | Leads(t, q) && Leads(t, r) ensures q == r {
      LeadersStep(s, p, ch, q);
      LeadersStep(s, p, ch, r);
    }
    if t.refreshing.Some? {
      if s.refreshing.Some? {
        var l :| Leads(s, l);
        assert Leads(t, l);
      } else {
        assert Leads(t, p);
      }
    }
    if s.callers[p].Called? { LeaderChannel(s, p); }
  }

  lemma LeaderChannel(s: State, p: Pid)
    requires Inv(s) && Leads(s, p)
    ensures s.refreshing == Some(s.callers[p].done)
  {
    assert PcInv(s, s.callers[p]);
  }

  lemma NextKeepsInv(s: State, e: Event)
    requires Inv(s)
    ensures Inv(Next(s, e))
  {
    var t := Next(s, e);
    if e.Run? {
      if e.pid in s.callers { StepKeepsInv(s, e.pid, e.choice); }
    } else {
      assert forall p :: Leads(s, p) <==> Leads(t, p);
      forall q <- t.callers ensures PcInv(t, t.callers[q]) {
        assert q in s.callers ==> PcInv(s, s.callers[q]);
      }
    }
  }

  lemma {:induction false} ExecKeepsInv(s: State, events: seq<Event>)
    requires Inv(s)
    ensures Inv(Exec(s, events))
    decreases |events|
  {
    hide Inv, Next;
    if events != [] {
      NextKeepsInv(s, events[0]);
      ExecKeepsInv(Next(s, events[0]), events[1..]);
    }
  }

  /** In every run: at most one token-endpoint call is in flight; `refreshing` is set
      exactly while its leader is between the critical sections; a caller waits only
      for a channel that is closed already or that this leader will close; and a token
      from the cache has more than the skew left when it is handed out. */
  lemma SingleFlight(s0: State, events: seq<Event>, p: Pid, q: Pid)
    requires Init(s0)
    ensures var s := Exec(s0, events);
            && (Leads(s, p) && Leads(s, q) ==> p == q)
            && (s.refreshing.Some? <==> exists l :: Leads(s, l))
            && (p in s.callers && s.callers[p].Waiting? ==>
                  s.callers[p].done in s.closed
                  || exists l :: Leads(s, l) && s.callers[l].done == s.callers[p].done)
            && (p in s.callers && s.callers[p].Cached? ==> s.callers[p].token.expiry - s.callers[p].at > SKEW)
  {
    hide Next;
    ExecKeepsInv(s0, events);
    var s := Exec(s0, events);
    forall l | Leads(s, l) ensures s.refreshing == Some(s.callers[l].done) { assert PcInv(s, s.callers[l]); }
    if p in s.callers { assert PcInv(s, s.callers[p]); }
  }

  /** A waiter is never stranded: when its leader leaves the second critical section the
      channel it waits for is closed. */
  lemma LeaderWakesWaiters(s: State, leader: Pid, p: Pid, ch: Choice)
    requires Inv(s) && leader in s.callers && s.callers[leader].Called?
    requires p in s.callers && s.callers[p].Waiting?
    ensures var t := Step(s, leader, ch);
            t.refreshing == None && t.callers[p] == s.callers[p] && t.callers[p].done in t.closed
            && Step(t, p, Go).callers[p] == Enter
  {
    assert PcInv(s, s.callers[leader]) && PcInv(s, s.callers[p]);
  }

  // ---- one call serves everybody ----

  /** The cache holds the token, and nobody calls. */
  ghost predicate Serves(s: State, token: Token) {
    s.token == Some(token) && s.refreshing == None && forall p :: !Leads(s, p)
  }

  /** A caller that was not through yet when the token came is on its way, or got that token from
      the cache, or gave up. */
  predicate ServedBy(s: State, p: Pid, token: Token, since: Time) {
    p in s.callers ==>
      match s.callers[p]
      case Enter | Failed => true
      case Waiting(done) => done in s.closed
      case Cached(t, at) => t == token && since <= at <= s.now
      case _ => false
  }

  lemma NextServes(s: State, e: Event, token: Token)
    requires Serves(s, token) && token.expiry - Next(s, e).now > SKEW
    ensures Serves(Next(s, e), token) && s.now <= Next(s, e).now
  {
    var t := Next(s, e);
    assert e.Run? ==> !Leads(s, e.pid);
    forall q ensures !Leads(t, q) { assert !Leads(s, q); }
  }

  lemma NextServesOne(s: State, e: Event, token: Token, p: Pid, since: Time)
    requires Serves(s, token) && ServedBy(s, p, token, since) && since <= s.now
    requires token.expiry - Next(s, e).now > SKEW
    ensures ServedBy(Next(s, e), p, token, since)
  {
    assert e.Run? ==> !Leads(s, e.pid);
  }

  lemma {:induction false} TimeGoesOn(s: State, events: seq<Event>)
    ensures s.now <= Exec(s, events).now
    decreases |events|
  {
    if events != [] { TimeGoesOn(Next(s, events[0]), events[1..]); }
  }

  lemma {:induction false} ExecServes(s: State, events: seq<Event>, token: Token)
    requires Serves(s, token) && token.expiry - Exec(s, events).now > SKEW
    ensures Serves(Exec(s, events), token)
    decreases |events|
  {
    hide Serves, Next;
    if events != [] {
      TimeGoesOn(Next(s, events[0]), events[1..]);
      NextServes(s, events[0], token);
      ExecServes(Next(s, events[0]), events[1..], token);
    }
  }

  lemma {:induction false} ExecServesOne(s: State, events: seq<Event>, token: Token, p: Pid, since: Time)
    requires Serves(s, token) && ServedBy(s, p, token, since) && since <= s.now
    requires token.expiry - Exec(s, events).now > SKEW
    ensures ServedBy(Exec(s, events), p, token, since)
    decreases |events|
  {
    hide Serves, ServedBy, Next;
    if events != [] {
      TimeGoesOn(Next(s, events[0]), events[1..]);
      NextServes(s, events[0], token);
      NextServesOne(s, events[0], token, p, since);
      ExecServesOne(Next(s, events[0]), events[1..], token, p, since);
    }
  }

  /** In every run: after a leader obtained a token, and for as long as that has more than the skew
      left, nobody calls the token endpoint, whatever else happens; and every caller that was not
      through by then, waiters and later ones alike, gets that token from the cache. */
  lemma TokenIsShared(s0: State, before: seq<Event>, leader: Pid, ch: Choice, after: seq<Event>, p: Pid)
    requires Init(s0)
    ensures var s := Exec(s0, before);
            leader in s.callers && s.callers[leader].Called? && s.callers[leader].answer.Some? ==>
              var token, t := s.callers[leader].answer.value, Next(s, Run(leader, ch));
              var u := Exec(t, after);
              && t.callers[leader] == Obtained(token)
              && (token.expiry - u.now > SKEW ==>
                    && (forall q :: !Leads(u, q))
                    && (p in u.callers && u.callers[p].Enter? ==> Next(u, Run(p, Go)).callers[p] == Cached(token, u.now))
                    && (p !in s.callers || s.callers[p].Enter? || s.callers[p].Waiting? ==> ServedBy(u, p, token, s.now)))
  {
    hide Exec, Init;
    var s := Exec(s0, before);
    assert Inv(s) by { InitIsInv(s0); ExecKeepsInv(s0, before); }
    if leader in s.callers && s.callers[leader].Called? && s.callers[leader].answer.Some? {
      var token, t := s.callers[leader].answer.value, Next(s, Run(leader, ch));
      ObtainedServes(s, leader, ch);
      if token.expiry - Exec(t, after).now > SKEW {
        ExecServes(t, after, token);
        if p !in s.callers || s.callers[p].Enter? || s.callers[p].Waiting? {
          WaiterIsWoken(s, leader, ch, p);
          ExecServesOne(t, after, token, p, s.now);
        }
      }
    }
  }

  lemma InitIsInv(s: State)
    requires Init(s)
    ensures Inv(s)
  {
  }

  lemma ObtainedServes(s: State, leader: Pid, ch: Choice)
    requires Inv(s) && leader in s.callers && s.callers[leader].Called? && s.callers[leader].answer.Some?
    ensures var t := Next(s, Run(leader, ch));
            Serves(t, s.callers[leader].answer.value) && t.now == s.now && t.callers[leader] == Obtained(s.callers[leader].answer.value)
  {
    var t := Next(s, Run(leader, ch));
    forall q ensures !Leads(t, q) { assert Leads(s, leader) && (Leads(s, q) ==> q == leader); }
  }

  lemma WaiterIsWoken(s: State, leader: Pid, ch: Choice, p: Pid)
    requires Inv(s) && leader in s.callers && s.callers[leader].Called? && s.callers[leader].answer.Some?
    requires p !in s.callers || s.callers[p].Enter? || s.callers[p].Waiting?
    ensures ServedBy(Next(s, Run(leader, ch)), p, s.callers[leader].answer.value, s.now)
  {
    assert PcInv(s, s.callers[leader]) && (p in s.callers ==> PcInv(s, s.callers[p]));
  }

  /** Nobody is stuck: in every run a caller that waits or is about to try can take a step, or
      somebody is calling the token endpoint for it; so a failed call lets another caller lead. */
  lemma NobodyIsStuck(s0: State, events: seq<Event>, p: Pid)
    requires Init(s0)
    ensures var s := Exec(s0, events);
            p in s.callers && (s.callers[p].Enter? || s.callers[p].Waiting?) ==>
              || Next(s, Run(p, Go)).callers[p] != s.callers[p]
              || exists l :: l != p && Leads(s, l) && s.callers[l].done == s.callers[p].done
    ensures var s := Exec(s0, events);
            p in s.callers && s.callers[p].Enter? && !Usable(s.token, s.now) && (forall l :: !Leads(s, l)) ==>
              Leads(Next(s, Run(p, Go)), p)
  {
    hide Exec, Init;
    var s := Exec(s0, events);
    assert Inv(s) by { InitIsInv(s0); ExecKeepsInv(s0, events); }
    if p in s.callers {
      assert PcInv(s, s.callers[p]);
      if s.refreshing.Some? {
        var l :| Leads(s, l);
        LeaderChannel(s, l);
      }
    }
  }

  // ---- what the leader gets ----

  predicate StepsOf(events: seq<Event>, p: Pid) { exists e <- events :: e.Run? && e.pid == p }

  lemma {:induction false} OthersLeaveIt(s: State, events: seq<Event>, p: Pid)
    requires p in s.callers && !StepsOf(events, p)
    ensures p in Exec(s, events).callers && Exec(s, events).callers[p] == s.callers[p]
    decreases |events|
  {
    if events != [] {
      assert events[0] in events && forall e <- events[1..] :: e in events;
      OthersLeaveIt(Next(s, events[0]), events[1..], p);
    }
  }

  /** The leader gets what the token endpoint answers, whatever happens before it goes on: the token,
      which is then the cached one, or a failure, which leaves the cache as it is. */
  lemma LeaderGetsAnswer(s: State, leader: Pid, answer: Option<Token>, between: seq<Event>, ch: Choice)
    requires leader in s.callers && s.callers[leader].Calling? && !StepsOf(between, leader)
    ensures var t := Exec(Next(s, Run(leader, Answer(answer))), between);
            var u := Next(t, Run(leader, ch));
            && leader in u.callers
            && match answer
               case Some(token) => u.callers[leader] == Obtained(token) && u.token == Some(token)
               case None => u.callers[leader] == Failed && u.token == t.token
  {
    OthersLeaveIt(Next(s, Run(leader, Answer(answer))), between, leader);
  }

  /** A caller whose context ends while it waits gives up, and nobody else notices. */
  lemma WaiterGivesUp(s: State, p: Pid)
    requires p in s.callers && s.callers[p].Waiting?
    ensures Next(s, Run(p, Cancel)) == s.(callers := s.callers[p := Failed])
  {
  }
}
