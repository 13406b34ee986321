/** Any sequence of operations on the in-process store: it answers as a plain map that never
    sweeps, and no snapshot it ever returned changes. */
module SessionStoreRuns {
  import opened Basics
  import opened Sessions
  import opened PlainStore
  import opened MemorySessionStore

  /** A session in buffers of its own, as callers hand it to the store. */
  method NewRecord(sess: Session) returns (rec: Record)
    ensures fresh(Secrets(rec)) && Value(rec) == sess
  {
    var access := new Secret(sess.access);
    var refresh, idToken: Secret? := null, null;
    if sess.refresh != "" { refresh := new Secret(sess.refresh); }
    if sess.idToken != "" { idToken := new Secret(sess.idToken); }
    rec := Record(sess, access, refresh, idToken);
  }

  lemma OwnBuffersCome(store: Store, id: string, rec: Record)
    requires forall c <- Secrets(rec) :: c !in store.Owned()
    ensures store.Incoming(id, rec)
  {
    hide IndexOk;
    if id in store.sessions {
      var r := store.sessions[id].rec;
      assert forall c <- [r.access, r.refresh, r.idToken] :: c != null ==> c in Secrets(r) && c in store.Owned();
      assert forall c <- [rec.access, rec.refresh, rec.idToken] :: c != null ==> c in Secrets(rec);
    }
  }

  /** The sessions handed out in some answers, in order. */
  function Handed(answers: seq<Answer>): seq<Session> {
    if answers == [] then [] else
      var most, a := Handed(answers[..|answers| - 1]), answers[|answers| - 1];
      if a.Found? && a.sess.Some? then most + [a.sess.value] else most
  }

  lemma AgreeLater(swept: Contents, plain: Contents, now: Time, later: Time)
    requires Agree(swept, plain, now) && now <= later
    ensures Agree(swept, plain, later)
  {
  }

  /** After some expired entries went, the operation itself. */
  lemma SweptThenStep(swept: Contents, plain: Contents, ids: set<string>, op: Op, now: Time, later: Time)
    requires Agree(swept, plain, now) && now <= later && !op.Sweep?
    ensures Agree(Step(Step(swept, Sweep(ids), now).0, op, now).0, Step(plain, op, now).0, later)
    ensures Step(Step(swept, Sweep(ids), now).0, op, now).1 == Step(plain, op, now).1
  {
    hide Agree, Step;
    StepAgrees(swept, plain, Sweep(ids), now);
    var rest := Step(swept, Sweep(ids), now).0;
    StepAgrees(rest, plain, op, now);
    AgreeLater(Step(rest, op, now).0, Step(plain, op, now).0, now, later);
  }

  /** An operation that only reads leaves both as they are. */
  lemma ReadThenSwept(swept: Contents, plain: Contents, ids: set<string>, op: Op, now: Time, later: Time)
    requires Agree(swept, plain, now) && now <= later && (op.Get? || op.IdsBySubject? || op.IdsBySid?)
    ensures Step(plain, op, now).0 == plain && Step(swept, op, now).1 == Step(plain, op, now).1
    ensures Agree(swept, plain, later) && Agree(Step(swept, Sweep(ids), later).0, plain, later)
  {
    StepAgrees(swept, plain, op, now);
    AgreeLater(swept, plain, now, later);
    StepAgrees(swept, plain, Sweep(ids), later);
    hide Agree;
  }

  /** Of all the buffers the store ever held, it has emptied those it does not hold any more. */
  ghost predicate Clean(store: Store)
    reads store, store.owner.Keys
  {
    forall c <- store.owner.Keys :: c in store.Owned() || c.text == ""
  }

  /** Emptying what it drops, and changing no buffer it had dropped earlier, the store stays clean. */
  twostate lemma StaysClean(store: Store)
    requires old(Clean(store)) && forall c <- old(store.Owned()) :: c in store.Owned() || c.text == ""
    requires forall c <- store.owner.Keys :: c in old(store.owner).Keys || c in store.Owned()
    requires forall c <- old(store.owner).Keys | c !in old(store.Owned()) :: c.text == old(c.text)
    ensures Clean(store)
  {
  }

  /** What an operation does to the store, besides its answer: it goes on agreeing with the plain
      map, holds no buffers but its own of before and new ones, and empties those it gives up. */
  twostate predicate Done(store: Store, plain: Contents, op: Op, now: Time, later: Time)
    reads store, store.Owned()
  {
    && store.Valid() && Agree(store.View(), Step(plain, op, now).0, later)
    && (forall c <- store.Owned() :: c in old(store.Owned()) || fresh(c))
    && old(store.owner).Keys <= store.owner.Keys
    && forall c <- store.owner.Keys :: c in old(store.owner).Keys || c in store.Owned()
  }

  method PerformPut(store: Store, id: string, sess: Session, ttl: int, now: Time, later: Time, ghost plain: Contents)
    requires store.Valid() && now <= later && Agree(store.View(), plain, now)
    modifies store, store.Owned()
    ensures Done(store, plain, Put(id, sess, ttl), now, later)
    ensures forall c <- old(store.Owned()) :: c in store.Owned() || c.text == ""
  {
    hide IndexOk, Value, Secrets, Step, Agree;
    var rec := NewRecord(sess);
    OwnBuffersCome(store, id, rec);
    ghost var before, was, held := store.View(), store.sessions, store.Owned();
    ghost var swept := store.Put(id, rec, ttl, now);
    forall c <- held ensures c in store.Owned() || c.text == "" {
      var i :| i in was && c in Secrets(was[i].rec);
      assert i !in swept && i != id ==> i in store.sessions && store.sessions[i] == was[i];
    }
    assert store.sessions[id].rec == rec && Secrets(rec) <= store.Owned();
    SweptThenStep(before, plain, swept, Put(id, sess, ttl), now, later);
  }

  method PerformUpdate(store: Store, id: string, expected: nat, sess: Session, ttl: int, now: Time, later: Time,
                       ghost plain: Contents) returns (stored: bool)
    requires store.Valid() && now <= later && Agree(store.View(), plain, now)
    modifies store, store.Owned()
    ensures Done(store, plain, Update(id, expected, sess, ttl), now, later)
    ensures forall c <- old(store.Owned()) :: c in store.Owned() || c.text == ""
    ensures Stored(stored) == Step(plain, Update(id, expected, sess, ttl), now).1
  {
    hide IndexOk, Value, Secrets, Step, Agree;
    var rec := NewRecord(sess);
    OwnBuffersCome(store, id, rec);
    ghost var before, was, held := store.View(), store.sessions, store.Owned();
    stored := store.Update(id, expected, rec, ttl, now);
    forall c <- held ensures c in store.Owned() || c.text == "" {
      var i :| i in was && c in Secrets(was[i].rec);
      assert i != id || !stored ==> i in store.sessions && store.sessions[i] == was[i];
    }
    assert stored ==> store.sessions[id].rec == rec && Secrets(rec) <= store.Owned();
    StepAgrees(before, plain, Update(id, expected, sess, ttl), now);
    AgreeLater(store.View(), Step(plain, Update(id, expected, sess, ttl), now).0, now, later);
  }

  method PerformDelete(store: Store, id: string, now: Time, later: Time, ghost plain: Contents)
    requires store.Valid() && now <= later && Agree(store.View(), plain, now)
    modifies store, store.Owned()
    ensures Done(store, plain, Delete(id), now, later)
    ensures forall c <- old(store.Owned()) :: c in store.Owned() || c.text == ""
  {
    hide IndexOk, Value, Secrets, Agree;
    ghost var before, was, held := store.View(), store.sessions, store.Owned();
    store.Delete(id);
    forall c <- held ensures c in store.Owned() || c.text == "" {
      var i :| i in was && c in Secrets(was[i].rec);
      assert i != id ==> i in store.sessions && store.sessions[i] == was[i];
    }
    StepAgrees(before, plain, Delete(id), now);
    AgreeLater(store.View(), Step(plain, Delete(id), now).0, now, later);
  }

  method PerformGet(store: Store, id: string, now: Time, later: Time, ghost plain: Contents) returns (found: Option<Record>)
    requires store.Valid() && now <= later && Agree(store.View(), plain, now)
    modifies store, store.Owned()
    ensures Done(store, plain, Get(id), now, later)
    ensures forall c <- old(store.Owned()) :: c in store.Owned() || c.text == ""
    ensures Found(if found.Some? then Some(Value(found.value)) else None) == Step(plain, Get(id), now).1
    ensures found.Some? ==> fresh(Secrets(found.value)) && Secrets(found.value) !! store.Owned()
  {
    hide IndexOk, Value, Secrets, Step, Agree;
    ghost var before, was, held := store.View(), store.sessions, store.Owned();
    found := store.Get(id, now, later);
    forall c <- held ensures c in store.Owned() || c.text == "" {
      var i :| i in was && c in Secrets(was[i].rec);
      assert i != id || id in store.sessions ==> i in store.sessions && store.sessions[i] == was[i];
    }
    ReadThenSwept(before, plain, {id}, Get(id), now, later);
  }

  /** What a record stands for. */
  function Snapshot(r: Record): (sess: Session)
    reads r.access, r.refresh, r.idToken
    ensures sess == Value(r)
  {
    r.fields.(access := Text(r.access), refresh := Text(r.refresh), idToken := Text(r.idToken))
  }

  /** One operation of the store's interface. */
  method Perform(store: Store, op: Op, now: Time, later: Time, ghost plain: Contents)
    returns (answer: Answer, snapshot: Option<Record>)
    requires store.Valid() && !op.Sweep? && now <= later && Agree(store.View(), plain, now)
    modifies store, store.Owned()
    ensures Done(store, plain, op, now, later) && answer == Step(plain, op, now).1
    ensures forall c <- old(store.Owned()) :: c in store.Owned() || c.text == ""
    ensures snapshot.Some? <==> answer.Found? && answer.sess.Some?
    ensures snapshot.Some? ==>
              && Value(snapshot.value) == answer.sess.value
              && fresh(Secrets(snapshot.value)) && Secrets(snapshot.value) !! store.Owned()
  {
    hide IndexOk, Value, Secrets, Agree;
    snapshot := None;
    match op
    case Put(id, sess, ttl) =>
      PerformPut(store, id, sess, ttl, now, later, plain);
      answer := Nothing;
    case Update(id, expected, sess, ttl) =>
      var stored := PerformUpdate(store, id, expected, sess, ttl, now, later, plain);
      answer := Stored(stored);
    case Get(id) =>
      snapshot := PerformGet(store, id, now, later, plain);
      answer := Found(if snapshot.Some? then Some(Snapshot(snapshot.value)) else None);
    case Delete(id) =>
      PerformDelete(store, id, now, later, plain);
      answer := Nothing;
    case IdsBySubject(subject) =>
      ReadThenSwept(store.View(), plain, {}, op, now, later);
      var ids := store.LiveIds(Subject, subject, now);
      answer := Ids(ids);
    case IdsBySid(sid) =>
      ReadThenSwept(store.View(), plain, {}, op, now, later);
      var ids := store.LiveIds(Sid, sid, now);
      answer := Ids(ids);
  }

  /** Any operations, in the order of their times, on one store. The answers are those of a plain
      map that never sweeps; and every session a Get ever handed out is still, in the buffers it
      was handed out in, what it was. */
  method Operate(store: Store, calls: seq<Call>, from: Time) returns (answers: seq<Answer>, snapshots: seq<Record>)
    requires store.Valid() && Ordered(calls, from) && forall i :: 0 <= i < |calls| ==> !calls[i].op.Sweep?
    modifies store, store.Owned()
    ensures store.Valid() && answers == PlainAnswers(old(store.View()), calls)
    ensures old(store.owner).Keys <= store.owner.Keys && (old(Clean(store)) ==> Clean(store))
    ensures |snapshots| == |Handed(answers)|
    ensures forall k :: 0 <= k < |snapshots| ==>
              Value(snapshots[k]) == Handed(answers)[k] && fresh(Secrets(snapshots[k])) && Secrets(snapshots[k]) !! store.Owned()
  {
    hide IndexOk, Value, Secrets, Agree, Step, Ordered, PlainAnswers, Handed, Clean, Owns, Store.Valid;
    answers, snapshots := [], [];
    AtTheStart(store.View(), calls, from);
    ghost var plain := store.View();
    ghost var time := from;
    for i := 0 to |calls|
      invariant store.Valid() && Ordered(calls[i..], time) && Agree(store.View(), plain, time)
      invariant answers + PlainAnswers(plain, calls[i..]) == PlainAnswers(old(store.View()), calls)
      invariant forall c <- store.Owned() :: c in old(store.Owned()) || fresh(c)
      invariant old(store.owner).Keys <= store.owner.Keys && (old(Clean(store)) ==> Clean(store))
      invariant |snapshots| == |Handed(answers)|
      invariant forall k :: 0 <= k < |snapshots| ==>
                  Value(snapshots[k]) == Handed(answers)[k] && fresh(Secrets(snapshots[k])) && Secrets(snapshots[k]) !! store.Owned()
    {
      var op, now := calls[i].op, calls[i].now;
      NextCall(plain, calls, i, time);
      // An expired entry that a Get found goes now or just before the next operation.
      var later := if i + 1 < |calls| then calls[i + 1].now else now;
      if * { later := now; }
      AgreeLater(store.View(), plain, time, now);
      label before:
      var answer, snapshot := Perform(store, op, now, later, plain);
      if old(Clean(store)) { StaysClean@before(store); }
      plain, time := Step(plain, op, now).0, later;
      Answers1(answers, answer);
      answers := answers + [answer];
      if snapshot.Some? { snapshots := snapshots + [snapshot.value]; }
    }
    AtTheStart(plain, calls, from);
  }

  lemma AtTheStart(m: Contents, calls: seq<Call>, from: Time)
    ensures Agree(m, m, from) && Handed([]) == [] && calls[0..] == calls && PlainAnswers(m, calls[|calls|..]) == []
  {
  }

  lemma NextCall(plain: Contents, calls: seq<Call>, i: nat, time: Time)
    requires i < |calls| && Ordered(calls[i..], time) && !calls[i].op.Sweep?
    ensures time <= calls[i].now && Ordered(calls[i + 1..], calls[i].now)
    ensures i + 1 < |calls| ==> calls[i].now <= calls[i + 1].now && Ordered(calls[i + 1..], calls[i + 1].now)
    ensures PlainAnswers(plain, calls[i..]) ==
            [Step(plain, calls[i].op, calls[i].now).1] + PlainAnswers(Step(plain, calls[i].op, calls[i].now).0, calls[i + 1..])
  {
    hide Step;
    assert calls[i..][0] == calls[i] && calls[i..][1..] == calls[i + 1..];
    assert i + 1 < |calls| ==> calls[i + 1..][0] == calls[i + 1];
  }

  lemma Answers1(answers: seq<Answer>, a: Answer)
    ensures Handed(answers + [a]) == Handed(answers) + (if a.Found? && a.sess.Some? then [a.sess.value] else [])
  {
    assert (answers + [a])[..|answers|] == answers;
  }
}
