/** A config value with subscribers, written by any number of goroutines. Stores and
    notifications are serialised by one lock, the subscriber map by another; each
    acquisition of the second and each call of a subscriber is one step. */
module Watchable {

  type SubId = nat
  type Pid = nat

  datatype Phase<T> =
    | Free
    | Stored(setter: Pid, prev: T, val: T)
    | Notifying(setter: Pid, prev: T, val: T, rest: seq<SubId>)

  /** `values` are all values stored so far, the last one being current; `logs` what each
      subscriber was called with and `starts` the value that was current, for it, when it
      subscribed. Neither is read by the code. */
  datatype State<T> = State(values: seq<T>, subscribers: set<SubId>, nextId: SubId, phase: Phase<T>,
                            logs: map<SubId, seq<(T, T)>>, starts: map<SubId, nat>)

  datatype Event<T> =
    | Store(setter: Pid, val: T)
    | Snapshot(order: seq<SubId>)
    | Notify
    | Unlock
    | OnChange
    | Cancel(id: SubId)

  predicate Distinct(ids: seq<SubId>) {
    forall i, j | 0 <= i < j < |ids| :: ids[i] != ids[j]
  }

  function Current<T>(s: State<T>): T
    requires s.values != []
  {
    s.values[|s.values| - 1]
  }

  /** One step; a step that is not possible changes nothing. */
  function Next<T>(s: State<T>, e: Event<T>): State<T> {
    if s.values == [] then s else
    match e
    // Set, having taken the set lock: read the old value, store the new one.
    case Store(setter, val) =>
      if s.phase.Free? then s.(values := s.values + [val], phase := Stored(setter, Current(s), val)) else s
    // Set copies the subscribers, in the order the map iteration happens to give.
    case Snapshot(order) =>
      if s.phase.Stored? && Distinct(order) && (set i | i in order) == s.subscribers then
        s.(phase := Notifying(s.phase.setter, s.phase.prev, s.phase.val, order))
      else s
    case Notify =>
      if s.phase.Notifying? && s.phase.rest != [] then
        var id := s.phase.rest[0];
        s.(phase := s.phase.(rest := s.phase.rest[1..]),
           logs := s.logs[id := (if id in s.logs then s.logs[id] else []) + [(s.phase.prev, s.phase.val)]])
      else s
    case Unlock => if s.phase.Notifying? && s.phase.rest == [] then s.(phase := Free) else s
    case OnChange =>
      s.(subscribers := s.subscribers + {s.nextId}, nextId := s.nextId + 1, logs := s.logs[s.nextId := []],
         starts := s.starts[s.nextId := if s.phase.Stored? && |s.values| >= 2 then |s.values| - 2 else |s.values| - 1])
    case Cancel(id) => s.(subscribers := s.subscribers - {id})
  }

  function Exec<T>(s: State<T>, events: seq<Event<T>>): State<T>
    decreases |events|
  {
    if events == [] then s else Exec(Next(s, events[0]), events[1..])
  }

  predicate Init<T(==)>(s: State<T>) {
    |s.values| == 1 && s.subscribers == {} && s.phase.Free? && s.logs == map[] && s.starts == map[] && s.nextId == 0
  }

  /** The Set under way is still going to call id. */
  predicate Due<T>(s: State<T>, id: SubId) {
    (s.phase.Stored? && id in s.subscribers) || (s.phase.Notifying? && id in s.phase.rest)
  }

  /** log is what the values say, from the start-th one on. */
  predicate Segment<T(==)>(values: seq<T>, log: seq<(T, T)>, start: nat) {
    && start + |log| < |values|
    && forall k | 0 <= k < |log| :: log[k] == (values[start + k], values[start + k + 1])
  }

  ghost predicate SubInv<T>(s: State<T>, id: SubId) {
    && id in s.logs && id in s.starts && id < s.nextId
    && Segment(s.values, s.logs[id], s.starts[id])
    && (Due(s, id) ==> s.starts[id] + |s.logs[id]| == |s.values| - 2)
    && (id in s.subscribers && !Due(s, id) ==> s.starts[id] + |s.logs[id]| == |s.values| - 1)
  }

  ghost predicate Inv<T>(s: State<T>) {
    && s.values != []
    && (!s.phase.Free? ==> |s.values| >= 2 && s.phase.val == Current(s) && s.phase.prev == s.values[|s.values| - 2])
    && (s.phase.Notifying? ==> Distinct(s.phase.rest) && forall i <- s.phase.rest :: i in s.logs)
    && s.subscribers <= s.logs.Keys
    && (forall id <- s.logs :: SubInv(s, id))
  }

  lemma NotifyKeepsInv<T>(s: State<T>)
    requires Inv(s)
    ensures Inv(Next(s, Notify))
  {
    var t := Next(s, Notify);
    if s.phase.Notifying? && s.phase.rest != [] {
      var now := s.phase.rest[0];
      assert SubInv(s, now);
      assert t.phase.rest == s.phase.rest[1..];
      forall i <- t.phase.rest ensures i in t.logs { assert i in s.phase.rest; }
      forall id <- t.logs ensures SubInv(t, id) {
        assert SubInv(s, id);
        assert id != now ==> (Due(s, id) <==> Due(t, id));
        assert now !in t.phase.rest;
      }
    }
  }

  lemma NextKeepsInv<T>(s: State<T>, e: Event<T>)
    requires Inv(s)
    ensures Inv(Next(s, e))
  {
    var t := Next(s, e);
    if e.Notify? {
      NotifyKeepsInv(s);
    } else {
      forall id <- t.logs ensures SubInv(t, id) {
        assert id in s.logs ==> SubInv(s, id);
      }
    }
  }

  lemma {:induction false} ExecKeepsInv<T>(s: State<T>, events: seq<Event<T>>)
    requires Inv(s)
    ensures Inv(Exec(s, events))
    decreases |events|
  {
    hide Inv, Next;
    if events != [] {
      NextKeepsInv(s, events[0]);
      ExecKeepsInv(Next(s, events[0]), events[1..]);
    }
  }

  /** Every subscriber sees a contiguous stretch of the stored values, so that each old
      value is the new value it saw before; and one that has not cancelled has seen all
      of it up to the current value whenever no Set is under way. */
  lemma NotificationsFollowStores<T>(s0: State<T>, events: seq<Event<T>>, id: SubId)
    requires Init(s0)
    ensures var s := Exec(s0, events);
            id in s.logs ==>
              var log := s.logs[id];
              && id in s.starts && Segment(s.values, log, s.starts[id])
              && (forall k | 0 < k < |log| :: log[k].0 == log[k - 1].1)
              && (s.phase.Free? && id in s.subscribers ==> s.starts[id] + |log| == |s.values| - 1)
  {
    hide Next;
    ExecKeepsInv(s0, events);
    var s := Exec(s0, events);
    if id in s.logs { assert SubInv(s, id); }
  }

  // ---- which values those are ----

  /** What the Sets of a run store: each one that finds no other Set under way, in this order. */
  function Sets<T>(s: State<T>, events: seq<Event<T>>): seq<T>
    decreases |events|
  {
    if events == [] then []
    else (if events[0].Store? && s.phase.Free? then [events[0].val] else []) + Sets(Next(s, events[0]), events[1..])
  }

  /** The values are the first one and then, in order, those that were set. */
  lemma {:induction false} ValuesWereSet<T>(s: State<T>, events: seq<Event<T>>)
    requires s.values != []
    ensures Exec(s, events).values == s.values + Sets(s, events)
    decreases |events|
  {
    if events != [] { ValuesWereSet(Next(s, events[0]), events[1..]); }
  }

  predicate Cancels<T>(e: Event<T>, id: SubId) { e.Cancel? && e.id == id }

  lemma {:induction false} StaysSubscribed<T>(s: State<T>, events: seq<Event<T>>, id: SubId)
    requires id in s.subscribers && id in s.starts && id < s.nextId && forall e <- events :: !Cancels(e, id)
    ensures var t := Exec(s, events); id in t.subscribers && id in t.starts && t.starts[id] == s.starts[id]
    decreases |events|
  {
    if events != [] {
      assert !Cancels(events[0], id);
      StaysSubscribed(Next(s, events[0]), events[1..], id);
    }
  }

  /** Whoever subscribes, at whatever moment, and does not cancel, has heard of every value since then
      whenever no Set is under way: one call for each, in order, with the value before it. What is
      new since then begins with the value of a Set that has stored but not yet looked who is
      subscribed. */
  lemma SubscriberHearsAll<T>(s0: State<T>, before: seq<Event<T>>, after: seq<Event<T>>)
    requires Init(s0)
    ensures var s := Exec(s0, before);
            var t, id := Exec(Next(s, OnChange), after), s.nextId;
            t.phase.Free? && (forall e <- after :: !Cancels(e, id)) ==>
              var start := |s.values| - (if s.phase.Stored? then 2 else 1);
              && id in t.logs && 0 <= start && |t.logs[id]| == |t.values| - 1 - start
              && forall k | 0 <= k < |t.logs[id]| :: t.logs[id][k] == (t.values[start + k], t.values[start + k + 1])
  {
    hide Next, Exec;
    var s := Exec(s0, before);
    var u, id := Next(s, OnChange), s.nextId;
    var t := Exec(u, after);
    ExecKeepsInv(s0, before);
    NextKeepsInv(s, OnChange);
    ExecKeepsInv(u, after);
    if t.phase.Free? && forall e <- after :: !Cancels(e, id) {
      Subscribes(s);
      StaysSubscribed(u, after, id);
      assert SubInv(t, id);
    }
  }

  lemma Subscribes<T>(s: State<T>)
    requires Inv(s)
    ensures var t, id := Next(s, OnChange), s.nextId;
            && id in t.subscribers && id in t.starts && id < t.nextId
            && t.starts[id] == |s.values| - (if s.phase.Stored? then 2 else 1)
  {
    hide SubInv;
  }

  predicate NoLongerCalled<T>(s: State<T>, id: SubId) {
    id < s.nextId && id !in s.subscribers && (s.phase.Notifying? ==> id !in s.phase.rest)
  }

  lemma {:induction false} NotCalledAgain<T>(s: State<T>, events: seq<Event<T>>, id: SubId)
    requires NoLongerCalled(s, id) && id in s.logs
    ensures id in Exec(s, events).logs && Exec(s, events).logs[id] == s.logs[id]
    decreases |events|
  {
    if events != [] {
      assert NoLongerCalled(Next(s, events[0]), id);
      NotCalledAgain(Next(s, events[0]), events[1..], id);
    }
  }

  /** A subscription that is cancelled while no Set is calling subscribers is never called again. */
  lemma CancelIsFinal<T>(s0: State<T>, before: seq<Event<T>>, id: SubId, after: seq<Event<T>>)
    requires Init(s0)
    ensures var s := Exec(s0, before);
            var t := Exec(Next(s, Cancel(id)), after);
            id in s.logs && !s.phase.Notifying? ==> id in t.logs && t.logs[id] == s.logs[id]
  {
    hide Next, Exec;
    ExecKeepsInv(s0, before);
    var s := Exec(s0, before);
    if id in s.logs && !s.phase.Notifying? {
      assert SubInv(s, id);
      CancelStops(s, id);
      NotCalledAgain(Next(s, Cancel(id)), after, id);
    }
  }

  lemma CancelStops<T>(s: State<T>, id: SubId)
    requires id in s.logs && !s.phase.Notifying? && id < s.nextId && s.values != []
    ensures var t := Next(s, Cancel(id)); NoLongerCalled(t, id) && id in t.logs && t.logs[id] == s.logs[id]
  {
  }

  // ---- a Set that is left alone ----

  /** The calls to the subscribers still to be told. */
  function Calls<T>(n: nat): seq<Event<T>> {
    if n == 0 then [Unlock] else [Notify] + Calls(n - 1)
  }

  /** At t the Set of s is over: whoever it was still to tell has been told, and nobody else. */
  ghost predicate Told<T>(s: State<T>, t: State<T>)
    requires s.phase.Notifying?
  {
    && t.phase.Free? && t.values == s.values && t.subscribers == s.subscribers && t.logs.Keys == s.logs.Keys
    && forall id <- s.logs :: t.logs[id] == s.logs[id] + (if id in s.phase.rest then [(s.phase.prev, s.phase.val)] else [])
  }

  lemma ToldOneMore<T>(s: State<T>, t: State<T>)
    requires s.phase.Notifying? && s.phase.rest != [] && s.values != [] && Distinct(s.phase.rest) && s.phase.rest[0] in s.logs
    requires Next(s, Notify).phase.Notifying? && Told(Next(s, Notify), t)
    ensures Told(s, t)
  {
    var rest, u := s.phase.rest, Next(s, Notify);
    assert rest[0] !in rest[1..];
    forall id <- s.logs
      ensures t.logs[id] == s.logs[id] + (if id in rest then [(s.phase.prev, s.phase.val)] else [])
    {
      assert id in rest <==> id == rest[0] || id in rest[1..];
      assert id in u.logs && t.logs[id] == u.logs[id] + (if id in rest[1..] then [(s.phase.prev, s.phase.val)] else []);
    }
  }

  lemma OneCall<T>(s: State<T>)
    requires Inv(s) && s.phase.Notifying? && s.phase.rest != []
    ensures Distinct(s.phase.rest) && s.phase.rest[0] in s.logs && s.values != []
    ensures var u := Next(s, Notify); u.phase.Notifying? && u.phase.rest == s.phase.rest[1..]
  {
    hide SubInv;
  }

  lemma NobodyToCall<T>(s: State<T>)
    requires Inv(s) && s.phase.Notifying? && s.phase.rest == []
    ensures Told(s, Next(s, Unlock))
  {
    hide SubInv;
  }

  lemma {:induction false} CallsEveryone<T>(s: State<T>)
    requires Inv(s) && s.phase.Notifying?
    ensures Told(s, Exec(s, Calls(|s.phase.rest|)))
    decreases |s.phase.rest|
  {
    hide Inv, Next, Told;
    var rest := s.phase.rest;
    if rest == [] {
      assert Calls<T>(0)[1..] == [];
      NobodyToCall(s);
    } else {
      var u := Next(s, Notify);
      assert Calls<T>(|rest|)[1..] == Calls(|rest| - 1) && Calls<T>(|rest|)[0] == Notify;
      OneCall(s);
      NotifyKeepsInv(s);
      CallsEveryone(u);
      ToldOneMore(s, Exec(u, Calls(|rest| - 1)));
    }
  }

  lemma SetStarts<T>(s: State<T>, setter: Pid, val: T, order: seq<SubId>)
    requires Inv(s) && s.phase.Free? && Distinct(order) && (set i | i in order) == s.subscribers
    ensures var b := Next(Next(s, Store(setter, val)), Snapshot(order));
            && Inv(b) && b.phase == Notifying(setter, Current(s), val, order)
            && b.values == s.values + [val] && b.subscribers == s.subscribers && b.logs == s.logs
  {
    NextKeepsInv(s, Store(setter, val));
    NextKeepsInv(Next(s, Store(setter, val)), Snapshot(order));
    hide SubInv;
  }

  /** A Set that is left alone stores its value, tells every subscriber of the old and the new value
      exactly once, tells nobody else, and is then over. */
  lemma SetCompletes<T>(s: State<T>, setter: Pid, val: T, order: seq<SubId>)
    requires Inv(s) && s.phase.Free? && Distinct(order) && (set i | i in order) == s.subscribers
    ensures var t := Exec(s, [Store(setter, val), Snapshot(order)] + Calls(|order|));
            && t.phase.Free? && t.values == s.values + [val] && t.subscribers == s.subscribers && t.logs.Keys == s.logs.Keys
            && (forall id <- s.logs :: t.logs[id] == s.logs[id] + (if id in s.subscribers then [(Current(s), val)] else []))
  {
    var calls := Calls<T>(|order|);
    SetStarts(s, setter, val, order);
    hide Inv, Next, Calls;
    var a := Next(s, Store(setter, val));
    var b := Next(a, Snapshot(order));
    assert ([Store(setter, val), Snapshot(order)] + calls)[1..] == [Snapshot(order)] + calls && ([Snapshot(order)] + calls)[1..] == calls;
    CallsEveryone(b);
    assert Exec(a, [Snapshot(order)] + calls) == Exec(b, calls);
    assert forall id :: id in order <==> id in s.subscribers;
  }
}
