/** The store of the session protocol is the plain map with expiry times that the
    in-process store implements. */
module SessionStoreLink {
  import opened Basics
  import opened Sessions
  import opened SessionProtocol
  import PlainStore
  import SessionInvariant

  function Plain(s: State): PlainStore.Contents {
    map id | id in s.store :: Timed(s.store[id].sess, s.store[id].expiresAt)
  }

  /** The store operation behind an effect; effects on locks and answers have none. */
  function OpOf(e: Effect): Option<PlainStore.Op> {
    match e
    case Create(id, sess, ttl, _) => Some(PlainStore.Put(id, sess, ttl))
    case Remove(id) => Some(PlainStore.Delete(id))
    case Update(id, expected, sess, ttl, _, _) => Some(PlainStore.Update(id, expected, sess, ttl))
    case _ => None
  }

  lemma EffectIsStoreStep(s: State, p: Pid, e: Effect)
    ensures Plain(Apply(s, p, e)) == (if OpOf(e).Some? then PlainStore.Step(Plain(s), OpOf(e).value, s.now).0 else Plain(s))
    ensures e.Update? ==>
              PlainStore.Step(Plain(s), OpOf(e).value, s.now).1 == PlainStore.Stored(CanUpdate(s, e.id, e.expected))
  {
  }

  lemma ReadsAreStoreSteps(s: State, id: Id, target: Target)
    requires WellFormed(target)
    ensures PlainStore.Step(Plain(s), PlainStore.Get(id), s.now).1 == PlainStore.Found(Read(s, id))
    ensures PlainStore.Step(Plain(s),
                            if target.BySubject? then PlainStore.IdsBySubject(target.subject) else PlainStore.IdsBySid(target.sid),
                            s.now).1 == PlainStore.Ids(LiveMatches(s, target))
  {
    assert forall i :: PlainStore.LiveIn(Plain(s), i, s.now) <==> Live(s, i);
  }

  lemma SweepIsStoreStep(cfg: Config, s: State, ids: set<Id>)
    ensures Plain(Next(cfg, s, Sweep(ids))) == PlainStore.Step(Plain(s), PlainStore.Sweep(ids), s.now).0
  {
  }

  /** The store operation behind an event, if there is one. */
  function EventOp(cfg: Config, s: State, e: Event): Option<PlainStore.Op> {
    if !Enabled(s, e) then None
    else if e.Sweep? then Some(PlainStore.Sweep(e.ids))
    else if e.Run? then OpOf(StepHandler(cfg, s, s.handlers[e.pid], e.choice).1)
    else None
  }

  lemma NextIsStoreStep(cfg: Config, s: State, e: Event)
    ensures var op := EventOp(cfg, s, e);
            Plain(Next(cfg, s, e)) == if op.Some? then PlainStore.Step(Plain(s), op.value, s.now).0 else Plain(s)
    ensures s.now <= Next(cfg, s, e).now
  {
    hide StepHandler, PlainStore.Step, SessionTTLFor, NewSession;
    if Enabled(s, e) && e.Sweep? {
      SweepIsStoreStep(cfg, s, e.ids);
    } else if Enabled(s, e) && e.Run? {
      var f := StepHandler(cfg, s, s.handlers[e.pid], e.choice).1;
      EffectIsStoreStep(s, e.pid, f);
      SessionInvariant.ApplyKeepsHandlers(s, e.pid, f);
      hide Apply;
    }
  }

  /** What a sequence of operations leaves of a plain map. */
  function After(m: PlainStore.Contents, calls: seq<PlainStore.Call>): PlainStore.Contents
    decreases |calls|
  {
    if calls == [] then m else After(PlainStore.Step(m, calls[0].op, calls[0].now).0, calls[1..])
  }

  /** The store operations of a run, with their times. */
  function CallsOf(cfg: Config, s: State, events: seq<Event>): seq<PlainStore.Call>
    decreases |events|
  {
    if events == [] then [] else
      var rest, op := CallsOf(cfg, Next(cfg, s, events[0]), events[1..]), EventOp(cfg, s, events[0]);
      if op.Some? then [PlainStore.Call(s.now, op.value)] + rest else rest
  }

  /** The store over a run of the protocol is the plain map over the operations of the handlers,
      in the order of their times. */
  lemma {:induction false} RunIsStoreRun(cfg: Config, s: State, events: seq<Event>)
    ensures PlainStore.Ordered(CallsOf(cfg, s, events), s.now)
    ensures Plain(Exec(cfg, s, events)) == After(Plain(s), CallsOf(cfg, s, events))
    decreases |events|
  {
    hide Next, EventOp, PlainStore.Step;
    if events != [] {
      var t, op := Next(cfg, s, events[0]), EventOp(cfg, s, events[0]);
      NextIsStoreStep(cfg, s, events[0]);
      RunIsStoreRun(cfg, t, events[1..]);
      var rest := CallsOf(cfg, t, events[1..]);
      StartsEarlier(rest, t.now, s.now);
      if op.Some? { assert ([PlainStore.Call(s.now, op.value)] + rest)[1..] == rest; }
    }
  }

  lemma StartsEarlier(calls: seq<PlainStore.Call>, from: Time, earlier: Time)
    requires PlainStore.Ordered(calls, from) && earlier <= from
    ensures PlainStore.Ordered(calls, earlier)
  {
  }
}
